/**
 * Hand-written matchers for the two closed patterns of the rule table,
 * with the leftmost-match semantics of `java.util.regex.Matcher.find`:
 *
 *   logSeverityLevel  (INFO|DEBUG|ERROR|WARN)   no word boundaries
 *   threadName        \[(.*?)\]                 `.` stops at line terminators
 */
module LogPatterns {

  import opened Wrappers

  /** A found match: the matched text is `s[start..end]`, `group` is capture group 1. */
  datatype Match = Match(start: nat, end: nat, group: string)

  /** The alternatives of `logSeverityLevel`, in the order they are tried. */
  const SeverityTokens: seq<string> := ["INFO", "DEBUG", "ERROR", "WARN"]

  predicate OccursAt(s: string, i: nat, t: string) {
    i + |t| <= |s| && s[i..i + |t|] == t
  }

  // ---------------------------------------------------------------------
  // logSeverityLevel
  // ---------------------------------------------------------------------

  /** The alternative that matches at position `i`, trying them in order. */
  function SeverityAt(s: string, i: nat): (r: Option<string>)
    ensures r.Some? ==> r.value in SeverityTokens && OccursAt(s, i, r.value)
    ensures r.None? <==> forall k :: 0 <= k < |SeverityTokens| ==> !OccursAt(s, i, SeverityTokens[k])
  {
    if OccursAt(s, i, "INFO") then Some("INFO")
    else if OccursAt(s, i, "DEBUG") then Some("DEBUG")
    else if OccursAt(s, i, "ERROR") then Some("ERROR")
    else if OccursAt(s, i, "WARN") then Some("WARN")
    else None
  }

  /** At most one alternative fits at any position, so their order never matters. */
  lemma SeverityTokensExclusive(s: string, i: nat, a: nat, b: nat)
    requires a < |SeverityTokens| && b < |SeverityTokens|
    requires OccursAt(s, i, SeverityTokens[a]) && OccursAt(s, i, SeverityTokens[b])
    ensures a == b
  {
    assert s[i] == SeverityTokens[a][0] == SeverityTokens[b][0];
  }

  function FindSeverityFrom(s: string, from: nat): (m: Option<Match>)
    requires from <= |s|
    ensures m.Some? ==> from <= m.value.start && SeverityAt(s, m.value.start) == Some(m.value.group)
                        && m.value.end == m.value.start + |m.value.group|
                        && forall j :: from <= j < m.value.start ==> SeverityAt(s, j).None?
    ensures m.None? ==> forall j :: from <= j <= |s| ==> SeverityAt(s, j).None?
    decreases |s| - from
  {
    var here := SeverityAt(s, from);
    if here.Some? then Some(Match(from, from + |here.value|, here.value))
    else if from == |s| then None
    else FindSeverityFrom(s, from + 1)
  }

  /**
   * `find()` with `logSeverityLevel`: the leftmost position where one of
   * the four tokens starts, and that token (the whole match and group 1).
   */
  function FindSeverity(s: string): (m: Option<Match>)
    ensures m.Some? ==> SeverityAt(s, m.value.start) == Some(m.value.group)
                        && m.value.end == m.value.start + |m.value.group|
                        && forall j :: 0 <= j < m.value.start ==> SeverityAt(s, j).None?
    ensures m.None? <==> forall j :: 0 <= j <= |s| ==> SeverityAt(s, j).None?
  {
    FindSeverityFrom(s, 0)
  }

  // ---------------------------------------------------------------------
  // threadName
  // ---------------------------------------------------------------------

  /** The characters `.` does not match without DOTALL. */
  predicate IsLineTerminator(c: char) {
    c == '\n' || c == '\r' || c == '\U{0085}' || c == '\U{2028}' || c == '\U{2029}'
  }

  /**
   * `\[(.*?)\]` matches `s[i..k+1]`: a bracket at `i`, and at `k` the first
   * closing bracket after it, with no line terminator in between.
   */
  predicate ThreadMatchAt(s: string, i: nat, k: nat) {
    i < k < |s| && s[i] == '[' && s[k] == ']'
    && forall j :: i < j < k ==> s[j] != ']' && !IsLineTerminator(s[j])
  }

  /** The closing bracket for an opening one at `i`, scanning from `k`. */
  function CloseFrom(s: string, i: nat, k: nat): (r: Option<nat>)
    requires i < k <= |s| && s[i] == '['
    requires forall j :: i < j < k ==> s[j] != ']' && !IsLineTerminator(s[j])
    ensures r.Some? ==> ThreadMatchAt(s, i, r.value)
    ensures r.None? ==> forall e :: !ThreadMatchAt(s, i, e)
    decreases |s| - k
  {
    if k == |s| then None
    else if s[k] == ']' then Some(k)
    else if IsLineTerminator(s[k]) then
      assert forall e :: k < e ==> !ThreadMatchAt(s, i, e) by {
        forall e | k < e ensures !ThreadMatchAt(s, i, e) {
          assert IsLineTerminator(s[k]);
        }
      }
      None
    else CloseFrom(s, i, k + 1)
  }

  function FindThreadNameFrom(s: string, from: nat): (m: Option<Match>)
    requires from <= |s|
    ensures m.Some? ==> from <= m.value.start < m.value.end && ThreadMatchAt(s, m.value.start, m.value.end - 1)
                        && m.value.group == s[m.value.start + 1..m.value.end - 1]
                        && forall i, k :: from <= i < m.value.start ==> !ThreadMatchAt(s, i, k)
    ensures m.None? ==> forall i, k :: from <= i ==> !ThreadMatchAt(s, i, k)
    decreases |s| - from
  {
    if from == |s| then None
    else if s[from] == '[' && CloseFrom(s, from, from + 1).Some? then
      var k := CloseFrom(s, from, from + 1).value;
      Some(Match(from, k + 1, s[from + 1..k]))
    else
      FindThreadNameFrom(s, from + 1)
  }

  /**
   * `find()` with `threadName`: the leftmost bracketed run that closes on
   * the same line; group 1 is the text between the brackets.
   */
  function FindThreadName(s: string): (m: Option<Match>)
    ensures m.Some? ==> m.value.start < m.value.end && ThreadMatchAt(s, m.value.start, m.value.end - 1)
                        && m.value.group == s[m.value.start + 1..m.value.end - 1]
                        && forall i, k :: 0 <= i < m.value.start ==> !ThreadMatchAt(s, i, k)
    ensures m.None? <==> forall i, k :: !ThreadMatchAt(s, i, k)
  {
    FindThreadNameFrom(s, 0)
  }

  /** The captured thread name never holds a closing bracket or spans two lines. */
  lemma ThreadNameIsOneBracketedRun(s: string)
    requires FindThreadName(s).Some?
    ensures var g := FindThreadName(s).value.group;
      forall j :: 0 <= j < |g| ==> g[j] != ']' && !IsLineTerminator(g[j])
  {
    var m := FindThreadName(s).value;
    var g := m.group;
    forall j | 0 <= j < |g| ensures g[j] != ']' && !IsLineTerminator(g[j]) {
      assert g[j] == s[m.start + 1 + j];
    }
  }

  /** Only one closing bracket can end a run opened at `i`: the first one after it. */
  lemma ThreadMatchUnique(s: string, i: nat, k1: nat, k2: nat)
    requires ThreadMatchAt(s, i, k1) && ThreadMatchAt(s, i, k2)
    ensures k1 == k2
  {
  }

  /**
   * Text with no opening bracket before a bracketed name that holds no
   * closing bracket and no line break: that name is the thread name found.
   */
  lemma FirstBracketedRun(s: string, pre: string, name: string, rest: string)
    requires s == pre + "[" + name + "]" + rest
    requires forall j :: 0 <= j < |pre| ==> pre[j] != '['
    requires forall j :: 0 <= j < |name| ==> name[j] != ']' && !IsLineTerminator(name[j])
    ensures FindThreadName(s) == Some(Match(|pre|, |pre| + |name| + 2, name))
  {
    var i, k := |pre|, |pre| + |name| + 1;
    assert s[i] == '[' && s[k] == ']';
    forall j | i < j < k ensures s[j] != ']' && !IsLineTerminator(s[j]) {
      assert s[j] == name[j - i - 1];
    }
    assert ThreadMatchAt(s, i, k);
    var m := FindThreadName(s).value;
    forall j | 0 <= j < i ensures s[j] != '[' {
      assert s[j] == pre[j];
    }
    assert m.start == i;
    ThreadMatchUnique(s, i, k, m.end - 1);
    assert s[i + 1..k] == name;
  }

  // ---------------------------------------------------------------------
  // The cases the patterns are exercised with
  // ---------------------------------------------------------------------

  lemma SeverityExample(s: string)
    requires s == "ERROR Something bad happened"
    ensures FindSeverity(s) == Some(Match(0, 5, "ERROR"))
  {
    assert s[0] == 'E' && s[1] == 'R' && s[2] == 'R' && s[3] == 'O' && s[4] == 'R';
    assert s[0..4] != "INFO" by { assert s[0..4][0] == 'E'; }
    assert s[0..5] != "DEBUG" by { assert s[0..5][0] == 'E'; }
    assert s[0..5] == "ERROR" by {
      assert |s[0..5]| == 5;
      assert forall i :: 0 <= i < 5 ==> s[0..5][i] == "ERROR"[i];
    }
    assert SeverityAt(s, 0) == Some("ERROR");
  }

  lemma ThreadNameExample(s: string)
    requires s == "[main] INFO starting up"
    ensures FindThreadName(s) == Some(Match(0, 6, "main"))
  {
    assert s[0] == '[' && s[1] == 'm' && s[2] == 'a' && s[3] == 'i' && s[4] == 'n' && s[5] == ']';
    assert CloseFrom(s, 0, 5) == Some(5);
    assert CloseFrom(s, 0, 3) == CloseFrom(s, 0, 4) == CloseFrom(s, 0, 5);
    assert CloseFrom(s, 0, 1) == CloseFrom(s, 0, 2) == CloseFrom(s, 0, 3);
    assert s[1..5] == "main";
  }
}
