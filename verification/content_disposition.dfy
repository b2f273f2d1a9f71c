/**
 * The filename extraction the report exports apply to a `Content-Disposition`
 * header: the first match of the pattern
 *   filename[^;=\n]*=((['"]).*?\2|[^;\n]*)
 * (leftmost match, backtracking, `.` excluding line terminators), whose first
 * group is then stripped of every `'` and `"`. It is a loose reading of the
 * `filename` parameter of section 4.1 of RFC 6266; `filename*` is not decoded.
 */
module ContentDisposition {
  import opened Wrappers

  const Keyword := "filename"

  predicate IsQuote(c: char) {
    c == '\'' || c == '"'
  }

  /** What `.` does not match. */
  predicate IsLineTerminator(c: char) {
    c == '\n' || c == '\r' || c == '\U{2028}' || c == '\U{2029}'
  }

  /** The characters `[^;=\n]` excludes. */
  predicate EndsName(c: char) {
    c == ';' || c == '=' || c == '\n'
  }

  /** The characters `[^;\n]` excludes. */
  predicate EndsValue(c: char) {
    c == ';' || c == '\n'
  }

  /** A greedy run `[^stop]*` from k: it ends at the first stop character or at the end. */
  function RunEnd(s: string, k: nat, stop: char -> bool): (e: nat)
    requires k <= |s|
    ensures k <= e <= |s|
    ensures forall m :: k <= m < e ==> !stop(s[m])
    ensures e < |s| ==> stop(s[e])
    decreases |s| - k
  {
    if k == |s| || stop(s[k]) then k else RunEnd(s, k + 1, stop)
  }

  /** No line terminator in s[k..e]. */
  predicate LineFree(s: string, k: nat, e: nat)
    requires k <= e <= |s|
  {
    forall m :: k <= m < e ==> !IsLineTerminator(s[m])
  }

  /** `.*?\2` from k: the first q at or after k, unless a line terminator comes first. */
  function ClosingQuote(s: string, k: nat, q: char): (p: Option<nat>)
    requires k <= |s|
    ensures p.Some? ==> k <= p.value < |s| && s[p.value] == q && LineFree(s, k, p.value)
    ensures p.Some? ==> forall m :: k <= m < p.value ==> s[m] != q
    ensures p.None? ==> forall m :: k <= m < |s| && s[m] == q ==> !LineFree(s, k, m)
    decreases |s| - k
  {
    if k == |s| then None
    else if s[k] == q then Some(k)
    else if IsLineTerminator(s[k]) then None
    else ClosingQuote(s, k + 1, q)
  }

  /**
   * The first group, once `=` has been matched and the group starts at k:
   * a quoted value when a matching closing quote follows on the same line,
   * otherwise everything up to `;`, a newline or the end.
   */
  function Group(s: string, k: nat): (g: string)
    requires k <= |s|
    ensures k + |g| <= |s| && g == s[k..k + |g|]
    // a quote closed later on the same line: the group ends at the first such quote
    ensures k < |s| && IsQuote(s[k]) && ClosingQuote(s, k + 1, s[k]).Some? ==>
              2 <= |g| && g[|g| - 1] == s[k] && LineFree(s, k + 1, k + |g| - 1) &&
              forall m :: k < m < k + |g| - 1 ==> s[m] != s[k]
    // otherwise: the longest run without `;` or a newline
    ensures !(k < |s| && IsQuote(s[k]) && ClosingQuote(s, k + 1, s[k]).Some?) ==>
              (forall m :: k <= m < k + |g| ==> !EndsValue(s[m])) &&
              (k + |g| == |s| || EndsValue(s[k + |g|]))
  {
    if k < |s| && IsQuote(s[k]) && ClosingQuote(s, k + 1, s[k]).Some? then
      s[k..ClosingQuote(s, k + 1, s[k]).value + 1]
    else
      s[k..RunEnd(s, k, EndsValue)]
  }

  predicate KeywordAt(s: string, i: nat) {
    i + |Keyword| <= |s| && s[i..i + |Keyword|] == Keyword
  }

  /** The position of the `=` that follows `filename[^;=\n]*` at i, if any. */
  function EqualsAfter(s: string, i: nat): Option<nat>
    requires KeywordAt(s, i)
  {
    var e := RunEnd(s, i + |Keyword|, EndsName);
    if e < |s| && s[e] == '=' then Some(e) else None
  }

  /** The pattern matches starting at i (the group always matches once `=` has). */
  predicate MatchesAt(s: string, i: nat) {
    KeywordAt(s, i) && EqualsAfter(s, i).Some?
  }

  /** The leftmost match start at or after i. */
  function FirstMatch(s: string, i: nat): (r: Option<nat>)
    requires i <= |s|
    ensures r.Some? ==> i <= r.value < |s| && MatchesAt(s, r.value)
    ensures r.Some? ==> forall m :: i <= m < r.value ==> !MatchesAt(s, m)
    ensures r.None? ==> forall m :: i <= m <= |s| ==> !MatchesAt(s, m)
    decreases |s| - i
  {
    if i == |s| then None
    else if MatchesAt(s, i) then Some(i)
    else FirstMatch(s, i + 1)
  }

  /** The pattern matches nowhere in s. */
  predicate NoMatch(s: string) {
    forall i :: 0 <= i <= |s| ==> !MatchesAt(s, i)
  }

  /** `header.match(pattern)[1]`, or None when the pattern does not match. */
  function FilenameGroup(header: string): (g: Option<string>)
  {
    match FirstMatch(header, 0)
    case None => None
    case Some(i) => Some(Group(header, EqualsAfter(header, i).value + 1))
  }

  /** `.replace(/['"]/g, '')` */
  function StripQuotes(s: string): (r: string)
    ensures |r| <= |s|
    ensures forall c :: c in r <==> c in s && !IsQuote(c)
  {
    if s == [] then []
    else if IsQuote(s[0]) then StripQuotes(s[1..])
    else [s[0]] + StripQuotes(s[1..])
  }

  /**
   * The filename a header yields: the stripped group when the header is
   * truthy, the pattern matches and the group is non-empty; otherwise None
   * (the caller keeps its default).
   */
  function SuggestedFilename(contentDisposition: Option<string>): (name: Option<string>)
    ensures name.Some? ==> forall c :: c in name.value ==> !IsQuote(c)
    ensures name.Some? ==>
              && contentDisposition.Some?
              && FilenameGroup(contentDisposition.value).Some?
              && FilenameGroup(contentDisposition.value).value != ""
              && name.value == StripQuotes(FilenameGroup(contentDisposition.value).value)
  {
    if contentDisposition.None? || contentDisposition.value == "" then None
    else match FilenameGroup(contentDisposition.value)
      case Some(g) => if g != "" then Some(StripQuotes(g)) else None
      case None => None
  }

  // ---------------------------------------------------------------------
  // Properties

  /**
   * `match(...)[1]` is the group of the leftmost match: when the pattern
   * matches at i and nowhere before, the group starts right after the `=`
   * that follows the keyword at i.
   */
  lemma FilenameGroupAt(header: string, i: nat)
    requires MatchesAt(header, i)
    requires forall m :: 0 <= m < i ==> !MatchesAt(header, m)
    ensures i < |header|
    ensures FilenameGroup(header) == Some(Group(header, EqualsAfter(header, i).value + 1))
  {
    var f := FirstMatch(header, 0);
    assert f.Some? && f.value <= i;
    assert f.value == i;
  }

  /** `match` returns null exactly when the pattern matches nowhere in the header. */
  lemma NoGroupIffNoMatch(header: string)
    ensures FilenameGroup(header).None? <==> NoMatch(header)
  {
    var f := FirstMatch(header, 0);
    if f.Some? {
      assert MatchesAt(header, f.value);
    }
  }

  /**
   * Only the leftmost match counts: the default is kept exactly when there is
   * no match, or when the first match's `=` is followed at once by `;`, a
   * newline or the end of the header (`filename=;`).
   */
  lemma KeepsDefaultIff(header: string)
    ensures SuggestedFilename(Some(header)).None? <==>
            match FirstMatch(header, 0)
            case None => true
            case Some(i) =>
              var k := EqualsAfter(header, i).value + 1;
              k == |header| || EndsValue(header[k])
  {
    if header == "" {
      EmptyHeaderKeepsDefault(header);
    } else {
      KeepsDefaultIffNonEmpty(header);
    }
  }

  /** KeepsDefaultIff for a truthy header. */
  lemma KeepsDefaultIffNonEmpty(header: string)
    requires header != ""
    ensures var f := FirstMatch(header, 0);
            SuggestedFilename(Some(header)).None? <==>
            f.None? || var k := EqualsAfter(header, f.value).value + 1;
                       k == |header| || EndsValue(header[k])
  {
    var f := FirstMatch(header, 0);
    if f.Some? {
      KeepsDefaultAt(header, f.value);
    } else {
      KeepsDefaultIffNoGroup(header);
    }
  }

  /** When the first match is at i, the default stays exactly when its value is empty. */
  lemma KeepsDefaultAt(header: string, i: nat)
    requires header != "" && FirstMatch(header, 0) == Some(i)
    ensures var k := EqualsAfter(header, i).value + 1;
            SuggestedFilename(Some(header)).None? <==> k == |header| || EndsValue(header[k])
    ensures var f := FirstMatch(header, 0);
            SuggestedFilename(Some(header)).None? <==>
            f.None? || var k := EqualsAfter(header, f.value).value + 1;
                       k == |header| || EndsValue(header[k])
  {
    var k := EqualsAfter(header, i).value + 1;
    KeepsDefaultIffNoGroup(header);
    assert FilenameGroup(header) == Some(Group(header, k));
    GroupNonEmptyAt(header, i);
    assert SuggestedFilename(Some(header)).None? <==> k == |header| || EndsValue(header[k]);
    assert FirstMatch(header, 0).value == i;
  }

  /** For a truthy header the default stays exactly when there is no group or it is empty. */
  lemma KeepsDefaultIffNoGroup(header: string)
    requires header != ""
    ensures SuggestedFilename(Some(header)).None? <==>
            FilenameGroup(header).None? || FilenameGroup(header).value == ""
  {
  }

  /** The empty header is falsy, so the default stays; the pattern cannot match it either. */
  lemma EmptyHeaderKeepsDefault(header: string)
    requires header == ""
    ensures SuggestedFilename(Some(header)).None? && FirstMatch(header, 0).None?
  {
  }

  /** A match's group is empty only when `=` is followed at once by `;`, a newline or the end. */
  lemma GroupNonEmptyAt(s: string, i: nat)
    requires MatchesAt(s, i)
    ensures var k := EqualsAfter(s, i).value + 1;
            Group(s, k) == "" <==> k == |s| || EndsValue(s[k])
  {
  }

  /** The group never runs past a `;` or a newline unless it is a quoted value, which has both quotes. */
  lemma GroupShape(s: string, k: nat)
    requires k <= |s|
    ensures var g := Group(s, k);
            (|g| >= 2 && IsQuote(g[0]) && g[|g| - 1] == g[0]) ||
            (forall m :: 0 <= m < |g| ==> !EndsValue(g[m]))
  {
  }

  /** Stripping distributes over concatenation. */
  lemma {:induction false} StripQuotesAppend(a: string, b: string)
    ensures StripQuotes(a + b) == StripQuotes(a) + StripQuotes(b)
  {
    if a != [] {
      assert (a + b)[0] == a[0];
      assert (a + b)[1..] == a[1..] + b;
      StripQuotesAppend(a[1..], b);
      var rest := StripQuotes(a[1..]);
      if IsQuote(a[0]) {
        assert StripQuotes(a) == rest;
      } else {
        assert StripQuotes(a) == [a[0]] + rest;
        assert StripQuotes(a + b) == [a[0]] + (rest + StripQuotes(b));
        assert [a[0]] + (rest + StripQuotes(b)) == [a[0]] + rest + StripQuotes(b);
      }
    } else {
      assert a + b == b;
    }
  }

  /** A string with no quotes is left as it is; so stripping twice is stripping once. */
  lemma {:induction false} StripQuotesUnquoted(s: string)
    requires forall c :: c in s ==> !IsQuote(c)
    ensures StripQuotes(s) == s
  {
    if s != [] {
      assert s[0] in s;
      assert forall c :: c in s[1..] ==> c in s;
      StripQuotesUnquoted(s[1..]);
    }
  }

  lemma StripQuotesIdempotent(s: string)
    ensures StripQuotes(StripQuotes(s)) == StripQuotes(s)
  {
    StripQuotesUnquoted(StripQuotes(s));
  }

  /** A quoted value loses exactly its quotes: `"a.pdf"` gives `a.pdf`. */
  lemma QuotedValue(q: char, inner: string)
    requires IsQuote(q) && forall c :: c in inner ==> !IsQuote(c)
    ensures StripQuotes([q] + inner + [q]) == inner
  {
    StripQuotesAppend([q] + inner, [q]);
    StripQuotesAppend([q], inner);
    StripQuotesUnquoted(inner);
  }

  // ---------------------------------------------------------------------
  // Headers as servers send them

  /** The leftmost match starts at i when the pattern matches there and no `f` comes before. */
  lemma FirstMatchAt(s: string, i: nat)
    requires i < |s| && MatchesAt(s, i)
    requires forall m :: 0 <= m < i ==> s[m] != 'f'
    ensures FirstMatch(s, 0) == Some(i)
  {
    LeftmostAtMost(s, i);
    MatchStartsWithF(s, FirstMatch(s, 0).value);
  }

  /** The leftmost match comes no later than any match. */
  lemma LeftmostAtMost(s: string, i: nat)
    requires i <= |s| && MatchesAt(s, i)
    ensures FirstMatch(s, 0).Some? && FirstMatch(s, 0).value <= i
  {
  }

  /** A match begins with the `f` of `filename`. */
  lemma MatchStartsWithF(s: string, j: nat)
    requires MatchesAt(s, j)
    ensures j < |s| && s[j] == 'f'
  {
    assert s[j..j + |Keyword|][0] == s[j];
  }

  /** `.*?\2` stops at the first q when no line terminator comes before it. */
  lemma ClosingQuoteAt(s: string, k: nat, q: char, p: nat)
    requires k <= p < |s| && s[p] == q && LineFree(s, k, p)
    requires forall m :: k <= m < p ==> s[m] != q
    ensures ClosingQuote(s, k, q) == Some(p)
  {
  }

  /**
   * `attachment; filename="<name>"`, for a name without quotes or line
   * terminators: the match is at the keyword and captures the quoted name.
   */
  lemma QuotedHeaderGroup(name: string, h: string)
    requires forall c :: c in name ==> !IsQuote(c) && !IsLineTerminator(c)
    requires h == "attachment; filename=\"" + name + "\""
    ensures FilenameGroup(h) == Some("\"" + name + "\"")
  {
    var n := |name|;
    forall m | 22 <= m < 22 + n
      ensures h[m] == name[m - 22] && !IsQuote(h[m]) && !IsLineTerminator(h[m])
    {
      assert name[m - 22] in name;
    }
    assert h[12..20] == Keyword;
    assert RunEnd(h, 20, EndsName) == 20;
    FirstMatchAt(h, 12);
    assert EqualsAfter(h, 12) == Some(20);
    ClosingQuoteAt(h, 22, '"', 22 + n);
    assert h[21..23 + n] == "\"" + name + "\"";
  }

  /** `attachment; filename="<name>"`: the name, without its quotes (`t_7.pdf` for `"t_7.pdf"`). */
  lemma QuotedHeader(name: string, h: string)
    requires forall c :: c in name ==> !IsQuote(c) && !IsLineTerminator(c)
    requires h == "attachment; filename=\"" + name + "\""
    ensures SuggestedFilename(Some(h)) == Some(name)
  {
    var g := ['"'] + name + ['"'];
    assert "\"" + name + "\"" == g;
    QuotedHeaderGroup(name, h);
    assert FilenameGroup(h) == Some(g) && g != "";
    QuotedValue('"', name);
    assert SuggestedFilename(Some(h)) == Some(StripQuotes(g));
  }

  /**
   * `filename*=<charset>''<name>` (the RFC 5987 form, as in `filename*=UTF-8''r.pdf`),
   * for a charset and name without quotes, `;` or newlines: the match is at the
   * keyword, `*` is consumed by the `[^;=\n]*` run, and the value runs to the end.
   */
  lemma ExtendedParameterGroup(charset: string, name: string, h: string)
    requires charset != ""
    requires forall c :: c in charset ==> !IsQuote(c) && !EndsValue(c)
    requires forall c :: c in name ==> !IsQuote(c) && !EndsValue(c)
    requires h == "filename*=" + charset + "''" + name
    ensures h[10..] == charset + "''" + name
    ensures FilenameGroup(h) == Some(h[10..])
  {
    var n := |charset|;
    assert h[0..8] == Keyword;
    assert h[8] == '*' && h[9] == '=';
    assert RunEnd(h, 9, EndsName) == 9;
    assert RunEnd(h, 8, EndsName) == 9;
    FirstMatchAt(h, 0);
    assert EqualsAfter(h, 0) == Some(9);
    forall m | 10 <= m < |h|
      ensures !EndsValue(h[m])
    {
      if m < 10 + n {
        assert h[m] == charset[m - 10] && charset[m - 10] in charset;
      } else if m >= 12 + n {
        assert h[m] == name[m - 12 - n] && name[m - 12 - n] in name;
      }
    }
    assert RunEnd(h, 10, EndsValue) == |h|;
    assert h[10] == charset[0] && charset[0] in charset;
    assert Group(h, 10) == h[10..];
    assert FilenameGroup(h) == Some(Group(h, 10));
    assert h[10..] == charset + "''" + name;
  }

  /** `filename*=<charset>''<name>` yields `<charset><name>`: the RFC 5987 form is taken literally, quotes dropped. */
  lemma ExtendedParameterTakenLiterally(charset: string, name: string, h: string)
    requires charset != ""
    requires forall c :: c in charset ==> !IsQuote(c) && !EndsValue(c)
    requires forall c :: c in name ==> !IsQuote(c) && !EndsValue(c)
    requires h == "filename*=" + charset + "''" + name
    ensures SuggestedFilename(Some(h)) == Some(charset + name)
  {
    ExtendedParameterGroup(charset, name, h);
    var g := h[10..];
    assert g == charset + ['\'', '\''] + name;
    StripInnerQuotes(charset, '\'', '\'', name);
    assert FilenameGroup(h) == Some(g) && g != "";
    assert SuggestedFilename(Some(h)) == Some(StripQuotes(g));
  }

  /** Quotes between two unquoted pieces vanish. */
  lemma StripInnerQuotes(a: string, q1: char, q2: char, b: string)
    requires IsQuote(q1) && IsQuote(q2)
    requires forall c :: c in a ==> !IsQuote(c)
    requires forall c :: c in b ==> !IsQuote(c)
    ensures StripQuotes(a + [q1, q2] + b) == a + b
  {
    var quotes := [q1, q2];
    assert quotes[1..] == [q2] && [q2][1..] == [];
    assert StripQuotes([q2]) == [];
    assert StripQuotes(quotes) == [];
    StripQuotesAppend(a, quotes);
    StripQuotesUnquoted(a);
    assert StripQuotes(a + quotes) == a;
    StripQuotesAppend(a + quotes, b);
    StripQuotesUnquoted(b);
  }

  /**
   * `filename=<a>;<rest>`, for a non-empty value a without quotes, `;` or
   * newlines: a is the filename, whatever `rest` holds (so
   * `filename=a.pdf;filename=b.pdf` gives `a.pdf`).
   */
  lemma FirstValueWins(a: string, rest: string, h: string)
    requires a != ""
    requires forall c :: c in a ==> !IsQuote(c) && !EndsValue(c)
    requires h == "filename=" + a + ";" + rest
    ensures SuggestedFilename(Some(h)) == Some(a)
  {
    var n := |a|;
    assert h[0..8] == Keyword;
    assert RunEnd(h, 8, EndsName) == 8;
    FirstMatchAt(h, 0);
    assert EqualsAfter(h, 0) == Some(8);
    forall m | 9 <= m < 9 + n
      ensures !EndsValue(h[m])
    {
      assert h[m] == a[m - 9] && a[m - 9] in a;
    }
    assert h[9 + n] == ';';
    assert RunEnd(h, 9, EndsValue) == 9 + n;
    assert h[9] == a[0] && a[0] in a;
    assert h[9..9 + n] == a;
    assert Group(h, 9) == a;
    assert FilenameGroup(h) == Some(a);
    StripQuotesUnquoted(a);
  }

  /** `filename=;filename=a.pdf`: the first, empty, value wins and the default is kept. */
  lemma FirstEmptyValueWins(h: string)
    requires h == "filename=;filename=a.pdf"
    ensures SuggestedFilename(Some(h)) == None
  {
    assert h[0..8] == Keyword;
    assert RunEnd(h, 8, EndsName) == 8;
    FirstMatchAt(h, 0);
    assert EqualsAfter(h, 0) == Some(8);
    assert RunEnd(h, 9, EndsValue) == 9;
    assert !IsQuote(h[9]);
    assert FilenameGroup(h) == Some(Group(h, 9)) && Group(h, 9) == "";
  }

  /** `filename=;`: an empty value keeps the default. */
  lemma EmptyValueKeepsDefault()
    ensures SuggestedFilename(Some("filename=;")) == None
  {
  }

  /** `filename=""`: the group `""` is non-empty, so the filename becomes the empty string. */
  lemma EmptyQuotedValue()
    ensures SuggestedFilename(Some("filename=\"\"")) == Some("")
  {
  }
}
