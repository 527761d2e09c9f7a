/** Hand-written matchers for the regular expressions the gateway-log classifiers use.
    Each pattern is a function that matches at one position; `Search` finds the leftmost
    position where it matches, as `String.prototype.match` does for a pattern without the
    `g` flag. The character classes are those of JavaScript patterns without the `u` flag. */
module Regex {
  import opened Wrappers
  import opened Text

  /** `\w` */
  predicate IsWordChar(c: char) {
    'a' <= c <= 'z' || 'A' <= c <= 'Z' || '0' <= c <= '9' || c == '_'
  }

  /** `\s`: ECMAScript white space and line terminators. */
  predicate IsSpace(c: char) {
    c == '\t' || c == '\n' || c == '\U{B}' || c == '\U{C}' || c == '\r' || c == ' '
    || c == '\U{A0}' || c == '\U{1680}' || ('\U{2000}' <= c <= '\U{200A}')
    || c == '\U{2028}' || c == '\U{2029}' || c == '\U{202F}' || c == '\U{205F}'
    || c == '\U{3000}' || c == '\U{FEFF}'
  }

  predicate IsLineTerminator(c: char) {
    c == '\n' || c == '\r' || c == '\U{2028}' || c == '\U{2029}'
  }

  /** `.` */
  predicate IsAnyButNewline(c: char) {
    !IsLineTerminator(c)
  }

  /** `[\w:-]` */
  predicate IsKeyChar(c: char) {
    IsWordChar(c) || c == ':' || c == '-'
  }

  /** `[\w/]` */
  predicate IsPathChar(c: char) {
    IsWordChar(c) || c == '/'
  }

  /** The end of the longest run of characters satisfying `p` that starts at `i`
      (a greedy `+` or `*` over a class). */
  function SpanEnd(s: string, i: nat, p: char -> bool): (j: nat)
    requires i <= |s|
    ensures i <= j <= |s|
    ensures forall k :: i <= k < j ==> p(s[k])
    ensures j < |s| ==> !p(s[j])
    decreases |s| - i
  {
    if i < |s| && p(s[i]) then SpanEnd(s, i + 1, p) else i
  }

  /** The run's end is the one position that ends a run of `p` characters from `i`. */
  lemma SpanEndIs(s: string, i: nat, j: nat, p: char -> bool)
    requires i <= j <= |s|
    requires forall k :: i <= k < j ==> p(s[k])
    requires j < |s| ==> !p(s[j])
    ensures SpanEnd(s, i, p) == j
  {
  }

  /** The least position at or after `from` where `at` matches. */
  function FirstMatch<T>(s: string, from: nat, at: (string, nat) -> Option<T>): (r: Option<nat>)
    ensures r.Some? ==> from <= r.value <= |s| && at(s, r.value).Some?
    ensures r.Some? ==> forall q :: from <= q < r.value ==> at(s, q).None?
    ensures r.None? ==> forall q :: from <= q <= |s| ==> at(s, q).None?
    decreases |s| + 1 - from
  {
    if from > |s| then None
    else if at(s, from).Some? then Some(from)
    else FirstMatch(s, from + 1, at)
  }

  /** The captures of the leftmost match of `at` in `s`, if any. */
  function Search<T>(s: string, at: (string, nat) -> Option<T>): (r: Option<T>)
    ensures r.Some? <==> exists p :: 0 <= p <= |s| && at(s, p).Some?
    ensures r.Some? ==> exists p :: 0 <= p <= |s| && at(s, p) == r && forall q :: 0 <= q < p ==> at(s, q).None?
  {
    match FirstMatch(s, 0, at)
    case Some(p) => at(s, p)
    case None => None
  }

  // ---------------------------------------------------------------------------
  // /\[tools\]\s+(\w+)\s+(failed|succeeded)?:?\s*(.*)/i

  datatype ToolCapture = ToolCapture(action: string, statusWord: Option<string>, detail: string)

  /** The positions `(a, b, c)` where `\[tools\]\s+(\w+)\s+` puts the start and the end
      of the action and the end of the white space that follows it, if that prefix of
      the pattern matches at `p`. The greedy runs cannot give back a character usefully:
      the class that follows each run excludes what the run holds. */
  function ToolHead(s: string, p: nat): (r: Option<(nat, nat, nat)>)
    ensures r.Some? ==> var (a, b, c) := r.value;
      && StartsAtIgnoreCase(s, p, "[tools]") && p + 7 < a < b < c <= |s|
      && (forall i :: p + 7 <= i < a ==> IsSpace(s[i]))
      && (forall i :: a <= i < b ==> IsWordChar(s[i]))
      && (forall i :: b <= i < c ==> IsSpace(s[i]))
      && (c < |s| ==> !IsSpace(s[c]))
  {
    if !StartsAtIgnoreCase(s, p, "[tools]") then None
    else
      var a := SpanEnd(s, p + 7, IsSpace);
      var b := SpanEnd(s, a, IsWordChar);
      var c := SpanEnd(s, b, IsSpace);
      if a == p + 7 || b == a || c == b then None else Some((a, b, c))
  }

  /** The end of `(failed|succeeded)?` at `c`: the optional group takes a status word
      when one is there. */
  function StatusEnd(s: string, c: nat): (k: nat)
    requires c <= |s|
    ensures c <= k <= |s|
    ensures k == c || StatusWordIs(s[c..k], "failed") || StatusWordIs(s[c..k], "succeeded")
  {
    if StartsAtIgnoreCase(s, c, "failed") then c + 6
    else if StartsAtIgnoreCase(s, c, "succeeded") then c + 9
    else c
  }

  /** The detail `(.*)` after `:?\s*` from `k`: the rest of the line. */
  function DetailAt(s: string, k: nat): (r: string)
    requires k <= |s|
    ensures forall i :: 0 <= i < |r| ==> !IsLineTerminator(r[i])
  {
    var d := if k < |s| && s[k] == ':' then k + 1 else k;
    var e := SpanEnd(s, d, IsSpace);
    var f := SpanEnd(s, e, IsAnyButNewline);
    s[e..f]
  }

  /** The tool-invocation pattern, matched at `p`. Everything after the status word
      always matches, so the first way the optional group can go is the match. */
  function ToolAt(s: string, p: nat): Option<ToolCapture> {
    match ToolHead(s, p)
    case None => None
    case Some((a, b, c)) =>
      var k := StatusEnd(s, c);
      Some(ToolCapture(s[a..b], if k == c then None else Some(s[c..k]), DetailAt(s, k)))
  }

  function ToolMatch(s: string): Option<ToolCapture> {
    Search(s, ToolAt)
  }

  /** What a tool match guarantees: a `[tools]` tag (any letter case) at `p`, then white
      space, then the action at `a`, a non-empty run of word characters that white space
      follows; a status word that is `failed` or `succeeded` in some letter case; a detail
      on one line. */
  lemma ToolMatchShape(s: string) returns (p: nat, a: nat)
    requires ToolMatch(s).Some?
    ensures ToolShape(s, p, a, ToolMatch(s).value)
  {
    p :| 0 <= p <= |s| && ToolAt(s, p) == ToolMatch(s);
    a := ToolAtShape(s, p);
  }

  lemma ToolAtShape(s: string, p: nat) returns (a: nat)
    requires ToolAt(s, p).Some?
    ensures ToolShape(s, p, a, ToolAt(s, p).value)
  {
    var cap := ToolAt(s, p).value;
    a := ToolHeadShape(s, p);
    assert StatusShape(cap.statusWord);
    assert DetailShape(cap.detail);
  }

  lemma ToolHeadShape(s: string, p: nat) returns (a: nat)
    requires ToolHead(s, p).Some?
    ensures ActionShape(s, p, a, s[ToolHead(s, p).value.0..ToolHead(s, p).value.1])
  {
    var (a', b, c) := ToolHead(s, p).value;
    a := a';
    var action := s[a..b];
    forall i | 0 <= i < |action| ensures IsWordChar(action[i]) {
      assert action[i] == s[a + i];
    }
  }

  /** What a tool match guarantees: a `[tools]` tag (any letter case) at `p`, then white
      space, then the action at `a`, a non-empty run of word characters that white space
      follows; a status word that is `failed` or `succeeded` in some letter case; a detail
      on one line. */
  ghost predicate ToolShape(s: string, p: nat, a: nat, c: ToolCapture) {
    ActionShape(s, p, a, c.action) && StatusShape(c.statusWord) && DetailShape(c.detail)
  }

  ghost predicate ActionShape(s: string, p: nat, a: nat, action: string) {
    && StartsAtIgnoreCase(s, p, "[tools]") && p + 7 < a
    && a + |action| < |s| && s[a..a + |action|] == action
    && IsSpace(s[a - 1]) && IsSpace(s[a + |action|])
    && action != [] && (forall i :: 0 <= i < |action| ==> IsWordChar(action[i]))
  }

  ghost predicate StatusShape(w: Option<string>) {
    w.Some? ==> StatusWordIs(w.value, "failed") || StatusWordIs(w.value, "succeeded")
  }

  ghost predicate DetailShape(d: string) {
    forall i :: 0 <= i < |d| ==> !IsLineTerminator(d[i])
  }

  /** `w` is `lit` up to the letter case of ASCII letters. */
  predicate StatusWordIs(w: string, lit: string) {
    |w| == |lit| && StartsAtIgnoreCase(w, 0, lit)
  }

  /** Lower-casing the status word gives `failed` exactly when it is `failed` in some
      letter case, as the classifiers' `statusWord?.toLowerCase() === "failed"` reads it. */
  lemma LowerIsFailed(w: string)
    ensures Lower(w) == "failed" <==> StatusWordIs(w, "failed")
  {
    if StatusWordIs(w, "failed") {
      assert forall i :: 0 <= i < 6 ==> Lower(w)[i] == LowerChar("failed"[i]) == "failed"[i];
    }
  }

  /** A match starts at a `[`. */
  lemma ToolAtBracket(s: string, p: nat)
    requires ToolAt(s, p).Some?
    ensures p < |s| && s[p] == '['
  {
    assert LowerChar(s[p]) == LowerChar("[tools]"[0]);
  }

  /** Without a `[` there is no tag, so no match. */
  lemma NoBracketNoToolMatch(s: string)
    requires '[' !in s
    ensures ToolMatch(s).None?
  {
    forall p: nat | p <= |s| ensures ToolAt(s, p).None? {
      NoTagNoToolAt(s, p);
    }
    SearchFails(s, ToolAt);
  }

  /** The action must be followed by white space: `[tools] exec: x` is no tool line. */
  lemma ActionNeedsSpaceAfter()
    ensures ToolMatch("[tools] exec: x").None?
  {
    var s := "[tools] exec: x";
    var t := s[1..];
    assert t == "tools] exec: x";
    assert '[' !in t;
    forall p: nat | p <= |s| ensures ToolAt(s, p).None? {
      if p == 0 {
        ExecHasNoSpaceAfter();
      } else if p < |s| {
        assert s[p] == t[p - 1];
        NoTagNoToolAt(s, p);
      } else {
        NoTagNoToolAt(s, p);
      }
    }
    SearchFails(s, ToolAt);
  }

  /** No tool match starts where there is no `[`. */
  lemma NoTagNoToolAt(s: string, p: nat)
    requires p >= |s| || s[p] != '['
    ensures ToolAt(s, p).None?
  {
    if ToolAt(s, p).Some? {
      ToolAtBracket(s, p);
    }
  }

  /** A pattern that matches nowhere is not found. */
  lemma SearchFails<T>(s: string, at: (string, nat) -> Option<T>)
    requires forall p: nat :: p <= |s| ==> at(s, p).None?
    ensures Search(s, at).None?
  {
  }

  lemma ExecHasNoSpaceAfter()
    ensures ToolAt("[tools] exec: x", 0).None?
  {
    var s := "[tools] exec: x";
    assert s[7] == ' ' && s[8] == 'e' && s[9] == 'x' && s[10] == 'e' && s[11] == 'c' && s[12] == ':';
    SpanEndIs(s, 7, 8, IsSpace);
    SpanEndIs(s, 8, 12, IsWordChar);
    SpanEndIs(s, 12, 12, IsSpace);
  }

  /** The line `[tools] <w> <st>: <d>`, as a tool reports a finished invocation. */
  function ToolLine(w: string, st: string, d: string): string {
    "[tools]" + " " + w + " " + st + ":" + " " + d
  }

  ghost predicate ToolLineParts(w: string, st: string, d: string) {
    && WordRun(w)
    && (st == "failed" || st == "succeeded")
    && DetailShape(d) && (d != [] ==> !IsSpace(d[0]))
  }

  /** Matching a tool line gives back its parts: the word, the status word and the
      detail (one that does not start with white space, which `\s*` would take). */
  lemma ToolLineMatch(w: string, st: string, d: string)
    requires ToolLineParts(w, st, d)
    ensures ToolMatch(ToolLine(w, st, d)) == Some(ToolCapture(w, Some(st), d))
  {
    var s := ToolLine(w, st, d);
    var b := 8 + |w|;
    var k := b + 1 + |st|;
    ToolLineHead(w, st, d);
    ToolLineStatus(w, st, d);
    ToolLineDetail(w, st, d);
    ToolLineSlices(w, st, d);
    ToolAtParts(s, 0, 8, b, b + 1, k);
    SearchAtStart(s, ToolAt);
  }

  lemma ToolAtParts(s: string, p: nat, a: nat, b: nat, c: nat, k: nat)
    requires ToolHead(s, p) == Some((a, b, c)) && c <= |s| && StatusEnd(s, c) == k && c < k
    ensures ToolAt(s, p) == Some(ToolCapture(s[a..b], Some(s[c..k]), DetailAt(s, k)))
  {
  }

  /** A pattern that matches at the start matches there first. */
  lemma SearchAtStart<T>(s: string, at: (string, nat) -> Option<T>)
    requires at(s, 0).Some?
    ensures Search(s, at) == at(s, 0)
  {
    assert FirstMatch(s, 0, at) == Some(0);
  }

  lemma ToolLineSlices(w: string, st: string, d: string)
    ensures var s := ToolLine(w, st, d); var b := 8 + |w|; var k := b + 1 + |st|;
      |s| == k + 2 + |d| && s[8..b] == w && s[b + 1..k] == st && s[k + 2..] == d
  {
  }

  lemma ToolLineHead(w: string, st: string, d: string)
    requires ToolLineParts(w, st, d)
    ensures ToolHead(ToolLine(w, st, d), 0) == Some((8, 8 + |w|, 9 + |w|))
  {
    ToolLineTag(w, st, d);
    ToolLineWord(w, st, d);
  }

  lemma ToolLineTag(w: string, st: string, d: string)
    requires ToolLineParts(w, st, d)
    ensures var s := ToolLine(w, st, d);
      StartsAtIgnoreCase(s, 0, "[tools]") && SpanEnd(s, 7, IsSpace) == 8
  {
    var s := ToolLine(w, st, d);
    assert forall i :: 0 <= i < 7 ==> s[i] == "[tools]"[i];
    assert s[7] == ' ' && s[8] == w[0];
    SpanEndIs(s, 7, 8, IsSpace);
  }

  lemma ToolLineWord(w: string, st: string, d: string)
    requires ToolLineParts(w, st, d)
    ensures var s := ToolLine(w, st, d); var b := 8 + |w|;
      SpanEnd(s, 8, IsWordChar) == b && SpanEnd(s, b, IsSpace) == b + 1
  {
    var s := ToolLine(w, st, d);
    var b := 8 + |w|;
    assert s[b] == ' ' && s[b + 1] == st[0];
    assert forall i :: 8 <= i < b ==> s[i] == w[i - 8];
    SpanEndIs(s, 8, b, IsWordChar);
    SpanEndIs(s, b, b + 1, IsSpace);
  }

  lemma ToolLineStatus(w: string, st: string, d: string)
    requires ToolLineParts(w, st, d)
    ensures StatusEnd(ToolLine(w, st, d), 9 + |w|) == 9 + |w| + |st|
  {
    var s := ToolLine(w, st, d);
    var c := 9 + |w|;
    ToolLineSlices(w, st, d);
    assert forall i :: 0 <= i < |st| ==> s[c + i] == st[i];
    if st == "failed" {
      assert StartsAtIgnoreCase(s, c, "failed");
    } else {
      assert LowerChar(s[c]) != LowerChar("failed"[0]);
      assert StartsAtIgnoreCase(s, c, "succeeded");
    }
  }

  lemma ToolLineDetail(w: string, st: string, d: string)
    requires ToolLineParts(w, st, d)
    ensures DetailAt(ToolLine(w, st, d), 9 + |w| + |st|) == d
  {
    var s := ToolLine(w, st, d);
    var k := 9 + |w| + |st|;
    ToolLineSlices(w, st, d);
    assert s[k] == ':' && s[k + 1] == ' ';
    assert forall i :: k + 2 <= i < |s| ==> s[i] == d[i - (k + 2)];
    SpanEndIs(s, k + 1, k + 2, IsSpace);
    SpanEndIs(s, k + 2, |s|, IsAnyButNewline);
  }

  // ---------------------------------------------------------------------------
  // /agent:[\w:-]+/

  /** A match at `p` is `agent:` and a non-empty run of `[\w:-]` characters, and the
      greedy run leaves no such character after it. */
  function AgentAt(s: string, p: nat): (r: Option<string>)
    ensures r.Some? ==> var k := r.value;
      && |k| > 6 && k[..6] == "agent:"
      && (forall i :: 6 <= i < |k| ==> IsKeyChar(k[i]))
      && StartsAt(s, p, k) && (p + |k| < |s| ==> !IsKeyChar(s[p + |k|]))
  {
    if !StartsAt(s, p, "agent:") then None
    else
      var e := SpanEnd(s, p + 6, IsKeyChar);
      if e == p + 6 then None
      else
        var k := s[p..e];
        assert k[..6] == s[p..p + 6];
        assert forall i :: 6 <= i < |k| ==> k[i] == s[p + i];
        Some(k)
  }

  function AgentToken(s: string): Option<string> {
    Search(s, AgentAt)
  }

  /** The matched token is `agent:` and a non-empty run of `[\w:-]` characters, occurs
      in `s`, and is not followed there by another such character. */
  lemma AgentTokenShape(s: string) returns (p: nat)
    requires AgentToken(s).Some?
    ensures var k := AgentToken(s).value;
      && |k| > 6 && k[..6] == "agent:"
      && (forall i :: 6 <= i < |k| ==> IsKeyChar(k[i]))
      && StartsAt(s, p, k) && (p + |k| < |s| ==> !IsKeyChar(s[p + |k|]))
  {
    p :| 0 <= p <= |s| && AgentAt(s, p) == AgentToken(s);
  }

  // ---------------------------------------------------------------------------
  // /\[(\w+)\]|(\w+)\s+failed/i

  /** First alternative, `\[(\w+)\]`. */
  function BracketTagAt(s: string, p: nat): (r: Option<string>)
    ensures r.Some? ==> WordRun(r.value)
  {
    if p < |s| && s[p] == '[' then
      var e := SpanEnd(s, p + 1, IsWordChar);
      if e > p + 1 && e < |s| && s[e] == ']' then
        var w := s[p + 1..e];
        assert forall i :: 0 <= i < |w| ==> w[i] == s[p + 1 + i];
        Some(w)
      else None
    else None
  }

  /** A non-empty run of `\w` characters. */
  predicate WordRun(w: string) {
    w != [] && forall i :: 0 <= i < |w| ==> IsWordChar(w[i])
  }

  /** Second alternative, `(\w+)\s+failed`. */
  function FailedWordAt(s: string, p: nat): (r: Option<string>)
    ensures r.Some? ==> WordRun(r.value)
  {
    if p > |s| then None
    else
      var e := SpanEnd(s, p, IsWordChar);
      var f := SpanEnd(s, e, IsSpace);
      if e > p && f > e && StartsAtIgnoreCase(s, f, "failed") then
        var w := s[p..e];
        assert forall i :: 0 <= i < |w| ==> w[i] == s[p + i];
        Some(w)
      else None
  }

  /** The alternation tries its first branch first at each position. */
  function ErrorActionAt(s: string, p: nat): Option<string> {
    match BracketTagAt(s, p)
    case Some(tag) => Some(tag)
    case None => FailedWordAt(s, p)
  }

  function ErrorAction(s: string): Option<string> {
    Search(s, ErrorActionAt)
  }

  /** Whichever branch matched, the capture is a non-empty run of word characters. */
  lemma ErrorActionShape(s: string)
    requires ErrorAction(s).Some?
    ensures WordRun(ErrorAction(s).value)
  {
    var p :| 0 <= p <= |s| && ErrorActionAt(s, p) == ErrorAction(s);
  }

  // ---------------------------------------------------------------------------
  // /subsystem.*?([\w/]+)/

  /** The lazy `.*?`: the first position from `j` on holding a `[\w/]` character,
      provided no line terminator comes before it. */
  function LazyScan(s: string, j: nat): (r: Option<nat>)
    ensures r.Some? ==> j <= r.value < |s| && IsPathChar(s[r.value])
    decreases |s| - j
  {
    if j >= |s| then None
    else if IsPathChar(s[j]) then Some(j)
    else if IsLineTerminator(s[j]) then None
    else LazyScan(s, j + 1)
  }

  function SubsystemAt(s: string, p: nat): (r: Option<string>)
    ensures r.Some? ==> r.value != [] && forall i :: 0 <= i < |r.value| ==> IsPathChar(r.value[i])
  {
    if !StartsAt(s, p, "subsystem") then None
    else
      match LazyScan(s, p + 9)
      case None => None
      case Some(j) =>
        var n := s[j..SpanEnd(s, j, IsPathChar)];
        assert forall i :: 0 <= i < |n| ==> n[i] == s[j + i];
        Some(n)
  }

  function SubsystemName(s: string): Option<string> {
    Search(s, SubsystemAt)
  }

  /** The captured subsystem name is a non-empty run of `[\w/]` characters. */
  lemma SubsystemNameShape(s: string)
    requires SubsystemName(s).Some?
    ensures var n := SubsystemName(s).value;
      n != [] && forall i :: 0 <= i < |n| ==> IsPathChar(n[i])
  {
    var p :| 0 <= p <= |s| && SubsystemAt(s, p) == SubsystemName(s);
  }

  /** `s.replace(/[{}"\s]/g, "")`. */
  function StripBracesQuotesSpace(s: string): (r: string)
    ensures forall i :: 0 <= i < |r| ==> r[i] != '{' && r[i] != '}' && r[i] != '"' && !IsSpace(r[i])
  {
    if s == [] then []
    else
      var c := s[0];
      (if c == '{' || c == '}' || c == '"' || IsSpace(c) then [] else [c]) + StripBracesQuotesSpace(s[1..])
  }

  /** A string of `[\w/]` characters has nothing for the replacement to remove. */
  lemma {:induction false} StripKeepsPathChars(s: string)
    requires forall i :: 0 <= i < |s| ==> IsPathChar(s[i])
    ensures StripBracesQuotesSpace(s) == s
  {
    if s != [] {
      StripKeepsPathChars(s[1..]);
    }
  }
}
