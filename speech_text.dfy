/** `cleanTextForSpeech`, the normaliser applied to a chat reply before it is
    sent for speech synthesis. The browser client and the server action carry
    the same eight-step chain of regular-expression replacements; it is
    defined once here. Each step is a left-to-right scanner that does what
    the global `replace` does: try a match at the current position, replace
    it and continue after it, or copy one character and move on. The lazy
    `.*?` of a pattern never crosses a line terminator. */
module SpeechText {
  import opened Wrappers
  import opened Text

  /** The characters `.` does not match. */
  predicate LineTerminator(c: char) {
    c == '\n' || c == '\r' || c == '\U{2028}' || c == '\U{2029}'
  }

  /** The shortest `.*?` starting at `from` that is followed by `d`: the
      position of the first `d` at or after `from` with no line terminator
      before it, or None when a line terminator or the end comes first. */
  function FindClose(s: string, d: string, from: nat): (r: Option<nat>)
    requires |d| > 0
    ensures r.Some? ==> from <= r.value && r.value + |d| <= |s| && s[r.value..r.value + |d|] == d
    ensures r.Some? ==> OpenSpan(s, d, from, r.value)
    decreases |s| - from
  {
    if from + |d| > |s| then None
    else if s[from..from + |d|] == d then Some(from)
    else if LineTerminator(s[from]) then None
    else
      var r := FindClose(s, d, from + 1);
      if r.Some? then OpenSpanExtends(s, d, from, r.value); r else r
  }

  /** `d` occurs in `s` at position `p`. */
  predicate StartsAt(s: string, d: string, p: nat) {
    p + |d| <= |s| && s[p..p + |d|] == d
  }

  /** No line terminator and no `d` starts in `[from, to)`, and `d` fits after it. */
  predicate OpenSpan(s: string, d: string, from: nat, to: nat) {
    && to + |d| <= |s|
    && (forall p :: from <= p < to ==> !LineTerminator(s[p]))
    && (forall p :: from <= p < to ==> !StartsAt(s, d, p))
  }

  /** A clear position in front of a clear span extends it. */
  lemma OpenSpanExtends(s: string, d: string, from: nat, to: nat)
    requires from < to && OpenSpan(s, d, from + 1, to)
    requires !LineTerminator(s[from]) && !StartsAt(s, d, from)
    ensures OpenSpan(s, d, from, to)
  {
  }

  /** `s.replace(/D(.*?)D/g, '$1')` for the delimiter `d` (`**`, `*` or a
      backtick), from position `i` on. */
  function StripDelimited(s: string, d: string, i: nat): string
    requires |d| > 0
    decreases |s| - i
  {
    if i >= |s| then []
    else if i + |d| <= |s| && s[i..i + |d|] == d && FindClose(s, d, i + |d|).Some? then
      var j := FindClose(s, d, i + |d|).value;
      s[i + |d|..j] + StripDelimited(s, d, j + |d|)
    else [s[i]] + StripDelimited(s, d, i + 1)
  }

  /** A link `[text](target)` starting at `i`: the positions of its "](" and
      of its closing ")". The text part is lazy, so the first "](" is taken;
      when no ")" follows it on the same line none follows a later "](" either
      (the text part cannot cross the line terminator), so trying only the
      first is what backtracking would find. */
  function LinkAt(s: string, i: nat): (r: Option<(nat, nat)>)
    ensures r.Some? ==> (i < r.value.0 && r.value.0 + 2 <= r.value.1 < |s|
      && s[r.value.0..r.value.0 + 2] == "](" && s[r.value.1] == ')')
  {
    match FindClose(s, "](", i + 1)
    case None => None
    case Some(j) =>
      match FindClose(s, ")", j + 2)
      case None => None
      case Some(k) => assert s[k..k + 1] == [s[k]]; Some((j, k))
  }

  /** `s.replace(/\[(.*?)\]\(.*?\)/g, '$1')` from position `i` on. */
  function StripLinks(s: string, i: nat): string
    decreases |s| - i
  {
    if i >= |s| then []
    else if s[i] == '[' && LinkAt(s, i).Some? then
      var (j, k) := LinkAt(s, i).value;
      s[i + 1..j] + StripLinks(s, k + 1)
    else [s[i]] + StripLinks(s, i + 1)
  }

  /** The number of consecutive '#' starting at `i`. */
  function HashRun(s: string, i: nat): (n: nat)
    ensures i + n <= |s| || (i >= |s| && n == 0)
    ensures forall p :: i <= p < i + n ==> s[p] == '#'
    ensures i + n < |s| ==> s[i + n] != '#'
    decreases |s| - i
  {
    if i < |s| && s[i] == '#' then 1 + HashRun(s, i + 1) else 0
  }

  /** `s.replace(/#{1,6}\s/g, '')` from position `i` on. The greedy `#{1,6}`
      can only back off onto a '#', which `\s` does not match, so a match
      at `i` is a run of one to six '#' followed by whitespace. */
  function StripHeaders(s: string, i: nat): string
    decreases |s| - i
  {
    if i >= |s| then []
    else
      var n := HashRun(s, i);
      if 1 <= n <= 6 && i + n < |s| && IsSpace(JavaScriptSpace, s[i + n]) then StripHeaders(s, i + n + 1)
      else [s[i]] + StripHeaders(s, i + 1)
  }

  /** The two run-collapsing steps: `\n+` and `\s+`. */
  datatype RunClass = Newlines | Spaces

  predicate InRun(k: RunClass, c: char) {
    match k
    case Newlines => c == '\n'
    case Spaces => IsSpace(JavaScriptSpace, c)
  }

  /** The end of the run of class `k` that starts at `i`. */
  function RunEnd(s: string, i: nat, k: RunClass): (j: nat)
    requires i <= |s|
    ensures i <= j <= |s| && (j == |s| || !InRun(k, s[j]))
    decreases |s| - i
  {
    if i < |s| && InRun(k, s[i]) then RunEnd(s, i + 1, k) else i
  }

  /** `s.replace(/\n+/g, rep)` or `s.replace(/\s+/g, rep)` from position `i`
      on: every maximal run becomes `rep`. */
  function ReplaceRuns(s: string, i: nat, k: RunClass, rep: string): string
    decreases |s| - i
  {
    if i >= |s| then []
    else if InRun(k, s[i]) then rep + ReplaceRuns(s, RunEnd(s, i + 1, k), k, rep)
    else [s[i]] + ReplaceRuns(s, i + 1, k, rep)
  }

  /** The markdown steps: bold, italic, code, links, headers. */
  function StripMarkdown(text: string): string {
    var bold := StripDelimited(text, "**", 0);
    var italic := StripDelimited(bold, "*", 0);
    var code := StripDelimited(italic, "`", 0);
    StripHeaders(StripLinks(code, 0), 0)
  }

  /** `\n+` becomes ". ". */
  function Periods(x: string): string {
    ReplaceRuns(x, 0, Newlines, ". ")
  }

  /** `\s+` becomes " ". */
  function Collapse(x: string): string {
    ReplaceRuns(x, 0, Spaces, " ")
  }

  /** The steps after the markdown ones. */
  function CleanTail(x: string): string {
    Trim(Collapse(Periods(x)), JavaScriptSpace)
  }

  /** The whole chain: markdown removed, line breaks turned into ". ",
      whitespace runs collapsed to one space, the ends trimmed. */
  function CleanTextForSpeech(text: string): string {
    CleanTail(StripMarkdown(text))
  }

  // ------------------------------------------------------------ normal form

  /** The only whitespace is the space character, never two in a row. */
  predicate SingleSpaced(r: string) {
    && (forall p :: 0 <= p < |r| && IsSpace(JavaScriptSpace, r[p]) ==> r[p] == ' ')
    && (forall p :: 0 <= p < |r| - 1 ==> !(IsSpace(JavaScriptSpace, r[p]) && IsSpace(JavaScriptSpace, r[p + 1])))
  }

  /** No whitespace at either end. */
  predicate Trimmed(r: string) {
    r == [] || (!IsSpace(JavaScriptSpace, r[0]) && !IsSpace(JavaScriptSpace, r[|r| - 1]))
  }

  lemma ConsSingleSpaced(c: char, rest: string)
    requires SingleSpaced(rest)
    requires IsSpace(JavaScriptSpace, c) ==> c == ' ' && (rest == [] || !IsSpace(JavaScriptSpace, rest[0]))
    ensures SingleSpaced([c] + rest)
  {
    var r := [c] + rest;
    forall p | 0 <= p < |r| - 1 ensures !(IsSpace(JavaScriptSpace, r[p]) && IsSpace(JavaScriptSpace, r[p + 1])) {
      if p > 0 {
        assert r[p] == rest[p - 1] && r[p + 1] == rest[p];
      }
    }
    forall p | 0 <= p < |r| && IsSpace(JavaScriptSpace, r[p]) ensures r[p] == ' ' {
      if p > 0 {
        assert r[p] == rest[p - 1];
      }
    }
  }

  lemma SliceSingleSpaced(r: string, a: nat, b: nat)
    requires a <= b <= |r| && SingleSpaced(r)
    ensures SingleSpaced(r[a..b])
  {
    var t := r[a..b];
    forall p | 0 <= p < |t| - 1 ensures !(IsSpace(JavaScriptSpace, t[p]) && IsSpace(JavaScriptSpace, t[p + 1])) {
      assert t[p] == r[a + p] && t[p + 1] == r[a + p + 1];
    }
  }

  /** After `\s+` has become " " the text is single-spaced, and a text
      that started on a non-space character still starts with it. */
  lemma {:induction false} CollapsedSpaces(s: string, i: nat)
    ensures var r := ReplaceRuns(s, i, Spaces, " ");
            && SingleSpaced(r)
            && (i < |s| && !IsSpace(JavaScriptSpace, s[i]) ==> |r| > 0 && r[0] == s[i])
    decreases |s| - i
  {
    if i < |s| {
      if IsSpace(JavaScriptSpace, s[i]) {
        var j := RunEnd(s, i + 1, Spaces);
        CollapsedSpaces(s, j);
        var rest := ReplaceRuns(s, j, Spaces, " ");
        assert j == |s| ==> rest == [];
        ConsSingleSpaced(' ', rest);
        assert ReplaceRuns(s, i, Spaces, " ") == [' '] + rest;
      } else {
        CollapsedSpaces(s, i + 1);
        var rest := ReplaceRuns(s, i + 1, Spaces, " ");
        ConsSingleSpaced(s[i], rest);
        assert ReplaceRuns(s, i, Spaces, " ") == [s[i]] + rest;
      }
    }
  }

  /** The cleaned text has no line break, its only whitespace is single
      spaces, and it has no whitespace at either end. */
  lemma CleanTextNormalized(text: string)
    ensures var r := CleanTextForSpeech(text);
            (forall p :: 0 <= p < |r| ==> r[p] != '\n') && SingleSpaced(r) && Trimmed(r)
  {
    TailNormalized(StripMarkdown(text));
  }

  lemma TailNormalized(x: string)
    ensures var r := CleanTail(x);
            (forall p :: 0 <= p < |r| ==> r[p] != '\n') && SingleSpaced(r) && Trimmed(r)
  {
    var spaced := Collapse(Periods(x));
    CollapsedSpaces(Periods(x), 0);
    var a, b := TrimIsSlice(spaced, JavaScriptSpace);
    SliceSingleSpaced(spaced, a, b);
    var r := CleanTail(x);
    assert r == spaced[a..b];
    assert IsSpace(JavaScriptSpace, '\n');
  }

  // ------------------------------------------------------------ plain text

  /** Characters that any of the steps treats specially. */
  const MarkupChars: string := "*`[]()#"

  /** Text that every step leaves alone: no markup character, single
      spaces between words and none at the ends. */
  predicate Plain(x: string) {
    (forall p :: 0 <= p < |x| ==> x[p] !in MarkupChars) && SingleSpaced(x) && Trimmed(x)
  }

  lemma {:induction false} FindCloseFirst(s: string, d: string, from: nat, j: nat)
    requires |d| > 0 && from <= j && j + |d| <= |s| && s[j..j + |d|] == d
    requires forall p :: from <= p < j ==> !LineTerminator(s[p]) && s[p] != d[0]
    ensures FindClose(s, d, from) == Some(j)
    decreases j - from
  {
    if from < j {
      assert s[from..from + |d|][0] == s[from];
      FindCloseFirst(s, d, from + 1, j);
    }
  }

  lemma {:induction false} StripDelimitedKeeps(s: string, d: string, i: nat)
    requires |d| > 0 && i <= |s|
    requires forall p :: i <= p < |s| ==> s[p] != d[0]
    ensures StripDelimited(s, d, i) == s[i..]
    decreases |s| - i
  {
    if i < |s| {
      assert i + |d| <= |s| ==> s[i..i + |d|][0] == s[i];
      StripDelimitedKeeps(s, d, i + 1);
      assert s[i..] == [s[i]] + s[i + 1..];
    }
  }

  lemma {:induction false} StripLinksKeeps(s: string, i: nat)
    requires i <= |s|
    requires forall p :: i <= p < |s| ==> s[p] != '['
    ensures StripLinks(s, i) == s[i..]
    decreases |s| - i
  {
    if i < |s| {
      StripLinksKeeps(s, i + 1);
      assert s[i..] == [s[i]] + s[i + 1..];
    }
  }

  lemma {:induction false} StripHeadersKeeps(s: string, i: nat)
    requires i <= |s|
    requires forall p :: i <= p < |s| ==> s[p] != '#'
    ensures StripHeaders(s, i) == s[i..]
    decreases |s| - i
  {
    if i < |s| {
      StripHeadersKeeps(s, i + 1);
      assert s[i..] == [s[i]] + s[i + 1..];
    }
  }

  /** A run step leaves text alone when every run in it is one character
      that is already the replacement. */
  lemma {:induction false} ReplaceRunsKeeps(s: string, i: nat, k: RunClass, rep: string)
    requires i <= |s|
    requires forall p :: i <= p < |s| && InRun(k, s[p]) ==> rep == [s[p]] && (p + 1 == |s| || !InRun(k, s[p + 1]))
    ensures ReplaceRuns(s, i, k, rep) == s[i..]
    decreases |s| - i
  {
    if i < |s| {
      if InRun(k, s[i]) {
        assert RunEnd(s, i + 1, k) == i + 1;
      }
      ReplaceRunsKeeps(s, i + 1, k, rep);
      assert s[i..] == [s[i]] + s[i + 1..];
    }
  }

  lemma TrimKeeps(s: string)
    requires s == [] || (!IsSpace(JavaScriptSpace, s[0]) && !IsSpace(JavaScriptSpace, s[|s| - 1]))
    ensures Trim(s, JavaScriptSpace) == s
  {
  }

  /** Plain text passes every step unchanged. */
  lemma PlainKeeps(x: string)
    requires Plain(x)
    ensures StripDelimited(x, "*", 0) == x && StripDelimited(x, "`", 0) == x
    ensures StripLinks(x, 0) == x && StripHeaders(x, 0) == x
    ensures CleanTail(x) == x
  {
    assert MarkupChars[0] == '*' && MarkupChars[1] == '`' && MarkupChars[2] == '[' && MarkupChars[6] == '#';
    StripDelimitedKeeps(x, "*", 0);
    StripDelimitedKeeps(x, "`", 0);
    StripLinksKeeps(x, 0);
    StripHeadersKeeps(x, 0);
    assert x[0..] == x;
    assert IsSpace(JavaScriptSpace, '\n');
    ReplaceRunsKeeps(x, 0, Newlines, ". ");
    forall p | 0 <= p < |x| && InRun(Spaces, x[p])
      ensures " " == [x[p]] && (p + 1 == |x| || !InRun(Spaces, x[p + 1]))
    {
      assert x[p] == ' ';
      assert p + 1 < |x| && !(IsSpace(JavaScriptSpace, x[p]) && IsSpace(JavaScriptSpace, x[p + 1]));
    }
    ReplaceRunsKeeps(x, 0, Spaces, " ");
    TrimKeeps(x);
  }

  /** "**x**" becomes x. */
  lemma BoldBecomesPlain(x: string)
    requires Plain(x)
    ensures CleanTextForSpeech("**" + x + "**") == x
  {
    PlainKeeps(x);
    PlainIsInline(x);
    BoldMarkdown("**" + x + "**", x);
  }

  lemma BoldMarkdown(s: string, x: string)
    requires s == "**" + x + "**" && Inline(x)
    ensures StripDelimited(s, "**", 0) == x
  {
    var j := 2 + |x|;
    assert s[2..j] == x && s[j..j + 2] == "**";
    InlineAt(s, 2, j);
    assert MarkupChars[0] == '*';
    FindCloseFirst(s, "**", 2, j);
    assert StripDelimited(s, "**", j + 2) == [];
  }

  /** The characters of an inline slice are neither markup nor line
      terminators. */
  lemma InlineAt(s: string, a: nat, b: nat)
    requires a <= b <= |s| && Inline(s[a..b])
    ensures forall p :: a <= p < b ==> s[p] !in MarkupChars && !LineTerminator(s[p])
  {
    forall p | a <= p < b ensures s[p] !in MarkupChars && !LineTerminator(s[p]) {
      assert s[p] == s[a..b][p - a];
    }
  }

  /** Text with no markup character on a single line. */
  predicate Inline(x: string) {
    forall p :: 0 <= p < |x| ==> x[p] !in MarkupChars && !LineTerminator(x[p])
  }

  lemma PlainIsInline(x: string)
    requires Plain(x)
    ensures Inline(x)
  {
    forall p | 0 <= p < |x| ensures !LineTerminator(x[p]) {
      if LineTerminator(x[p]) {
        assert IsSpace(JavaScriptSpace, x[p]);
      }
    }
  }

  /** "[t](u)" becomes t. */
  lemma LinkBecomesText(t: string, u: string)
    requires Plain(t) && Inline(u)
    ensures CleanTextForSpeech("[" + t + "](" + u + ")") == t
  {
    PlainKeeps(t);
    PlainIsInline(t);
    LinkMarkdown("[" + t + "](" + u + ")", t, u);
  }

  lemma LinkMarkdown(s: string, t: string, u: string)
    requires s == "[" + t + "](" + u + ")" && Inline(t) && Inline(u)
    ensures StripDelimited(StripDelimited(StripDelimited(s, "**", 0), "*", 0), "`", 0) == s
    ensures StripLinks(s, 0) == t
  {
    assert MarkupChars[0] == '*' && MarkupChars[1] == '`';
    forall p | 0 <= p < |s| ensures s[p] != '*' && s[p] != '`' {
      if 1 <= p < 1 + |t| { assert s[p] == t[p - 1]; }
      else if 3 + |t| <= p < 3 + |t| + |u| { assert s[p] == u[p - 3 - |t|]; }
    }
    StripDelimitedKeeps(s, "**", 0);
    StripDelimitedKeeps(s, "*", 0);
    StripDelimitedKeeps(s, "`", 0);
    assert s[0..] == s;
    LinkFound(s, t, u);
  }

  lemma LinkFound(s: string, t: string, u: string)
    requires s == "[" + t + "](" + u + ")" && Inline(t) && Inline(u)
    ensures StripLinks(s, 0) == t
  {
    var j, k := 1 + |t|, |s| - 1;
    LinkShape(s, t, u);
    InlineAt(s, 1, j);
    InlineAt(s, j + 2, k);
    assert MarkupChars[3] == ']' && MarkupChars[5] == ')';
    LinkAtIs(s, 0, j, k);
  }

  /** Where the parts of a link written out sit. */
  lemma LinkShape(s: string, t: string, u: string)
    requires s == "[" + t + "](" + u + ")"
    ensures s[0] == '[' && |s| == |t| + |u| + 4
    ensures s[1..1 + |t|] == t && s[1 + |t|..3 + |t|] == "](" && s[3 + |t|..|s| - 1] == u
    ensures s[|s| - 1] == ')'
  {
  }

  /** A link whose text holds no "]" and whose target holds no ")" is
      replaced by its text. */
  lemma LinkAtIs(s: string, i: nat, j: nat, k: nat)
    requires i < j && j + 2 <= k && k + 1 == |s| && s[i] == '['
    requires s[j..j + 2] == "](" && s[k] == ')'
    requires forall p :: i + 1 <= p < j ==> !LineTerminator(s[p]) && s[p] != ']'
    requires forall p :: j + 2 <= p < k ==> !LineTerminator(s[p]) && s[p] != ')'
    ensures StripLinks(s, i) == s[i + 1..j]
  {
    LinkAtFound(s, i, j, k);
    assert StripLinks(s, k + 1) == [];
  }

  lemma LinkAtFound(s: string, i: nat, j: nat, k: nat)
    requires i < j && j + 2 <= k < |s|
    requires s[j..j + 2] == "](" && s[k] == ')'
    requires forall p :: i + 1 <= p < j ==> !LineTerminator(s[p]) && s[p] != ']'
    requires forall p :: j + 2 <= p < k ==> !LineTerminator(s[p]) && s[p] != ')'
    ensures LinkAt(s, i) == Some((j, k))
  {
    LinkMiddleFound(s, i, j);
    LinkEndFound(s, j, k);
    LinkAtCloses(s, i, j, k);
  }

  /** The first "](" after the opening bracket is found. */
  lemma LinkMiddleFound(s: string, i: nat, j: nat)
    requires i < j && j + 2 <= |s| && s[j..j + 2] == "]("
    requires forall p :: i + 1 <= p < j ==> !LineTerminator(s[p]) && s[p] != ']'
    ensures FindClose(s, "](", i + 1) == Some(j)
  {
    assert "]("[0] == ']';
    FindCloseFirst(s, "](", i + 1, j);
  }

  /** The first ")" after the "](" is found. */
  lemma LinkEndFound(s: string, j: nat, k: nat)
    requires j + 2 <= k < |s| && s[k] == ')'
    requires forall p :: j + 2 <= p < k ==> !LineTerminator(s[p]) && s[p] != ')'
    ensures FindClose(s, ")", j + 2) == Some(k)
  {
    assert ")"[0] == ')';
    assert s[k..k + 1] == ")";
    FindCloseFirst(s, ")", j + 2, k);
  }

  /** `LinkAt` is read off the two delimiter searches. */
  lemma LinkAtCloses(s: string, i: nat, j: nat, k: nat)
    requires FindClose(s, "](", i + 1) == Some(j) && FindClose(s, ")", j + 2) == Some(k)
    ensures LinkAt(s, i) == Some((j, k))
  {
  }

  /** A heading marker of one to six '#' and a space is dropped: "## x"
      becomes x. */
  lemma HeadingBecomesPlain(n: nat, x: string)
    requires 1 <= n <= 6 && Plain(x)
    ensures CleanTextForSpeech(seq(n, _ => '#') + " " + x) == x
  {
    PlainKeeps(x);
    HeadingMarkdown(seq(n, _ => '#') + " " + x, n, x);
  }

  lemma HeadingMarkdown(s: string, n: nat, x: string)
    requires s == seq(n, _ => '#') + " " + x && 1 <= n <= 6 && Plain(x)
    ensures StripLinks(StripDelimited(StripDelimited(StripDelimited(s, "**", 0), "*", 0), "`", 0), 0) == s
    ensures StripHeaders(s, 0) == x
  {
    assert MarkupChars[0] == '*' && MarkupChars[1] == '`' && MarkupChars[2] == '[';
    forall p | 0 <= p < |s| ensures s[p] != '*' && s[p] != '`' && s[p] != '[' {
      if n + 1 <= p { assert s[p] == x[p - n - 1]; }
    }
    StripDelimitedKeeps(s, "**", 0);
    StripDelimitedKeeps(s, "*", 0);
    StripDelimitedKeeps(s, "`", 0);
    StripLinksKeeps(s, 0);
    assert s[0..] == s;
    HeadingRun(s, n, x);
  }

  lemma HeadingRun(s: string, n: nat, x: string)
    requires s == seq(n, _ => '#') + " " + x && 1 <= n <= 6 && Plain(x)
    ensures StripHeaders(s, 0) == x
  {
    assert MarkupChars[6] == '#';
    HeadingShape(s, n, x);
    HashRunIs(s, 0, n);
    StripHeadersKeeps(s, n + 1);
  }

  /** Where the parts of a heading written out sit. */
  lemma HeadingShape(s: string, n: nat, x: string)
    requires s == seq(n, _ => '#') + " " + x && Plain(x)
    ensures |s| == n + 1 + |x| && s[n] == ' ' && s[n + 1..] == x
    ensures forall p :: 0 <= p < n ==> s[p] == '#'
    ensures forall p :: n + 1 <= p < |s| ==> s[p] !in MarkupChars
  {
    assert s[n + 1..] == x;
    forall p | n + 1 <= p < |s| ensures s[p] !in MarkupChars {
      assert s[p] == x[p - n - 1];
    }
  }

  lemma {:induction false} HashRunIs(s: string, i: nat, n: nat)
    requires i + n < |s| && s[i + n] != '#'
    requires forall p :: i <= p < i + n ==> s[p] == '#'
    ensures HashRun(s, i) == n
    decreases n
  {
    if n > 0 {
      HashRunIs(s, i + 1, n - 1);
    }
  }
}
