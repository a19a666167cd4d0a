/**
 * The line-by-line crawler count of src/Main.java: the agent string is cut
 * out of each line by splitting it on spaces (`extractUserAgent`), a crawler
 * name is read from the agent (`extractBotNameFromUserAgent`), and
 * `processAccessLog` counts Googlebot and YandexBot lines, refusing any line
 * longer than 1024 characters.
 */
module AccessLog {
  import opened Text

  // ---------------------------------------------------------------------------
  // extractUserAgent

  /** A space-separated token that starts with a quote and has more than one char. */
  predicate IsAgentToken(t: string) { |t| > 1 && t[0] == '"' }

  /** No part after index `i` is an agent token. */
  predicate NoAgentTokenAfter(ps: seq<string>, i: int) {
    forall j :: 0 <= j < |ps| && i < j ==> !IsAgentToken(ps[j])
  }

  /** Such a token starts at position `k` of the line. */
  predicate AgentStartAt(s: string, k: nat) {
    k + 1 < |s| && s[k] == '"' && s[k + 1] != ' ' && (k == 0 || s[k - 1] == ' ')
  }

  /** `k` is the last position of the line where such a token starts. */
  predicate LastAgentStart(s: string, k: nat) {
    AgentStartAt(s, k) && forall k' :: k < k' < |s| ==> !AgentStartAt(s, k')
  }

  /** The rest of the line from the last agent token on, following the line's first-space structure. */
  function LastQuotedTail(s: string): Option<string>
    decreases |s|
  {
    if ' ' !in s then
      if IsAgentToken(s) then Some(s) else None
    else
      var c := IndexOf(s, ' ');
      match LastQuotedTail(s[c + 1..])
      case Some(t) => Some(t)
      case None => if IsAgentToken(s[..c]) then Some(s) else None
  }

  /** Token starts after the first space are the token starts of the rest of the line. */
  lemma AgentStartAfterSpace(s: string, c: nat, k: nat)
    requires c < |s| && s[c] == ' ' && ' ' !in s[..c]
    ensures AgentStartAt(s[c + 1..], k) <==> AgentStartAt(s, k + c + 1)
  {
    var t := s[c + 1..];
    if k + 1 < |t| {
      assert t[k] == s[k + c + 1] && t[k + 1] == s[k + c + 2];
      if k > 0 { assert t[k - 1] == s[k + c]; }
    }
  }

  /** Before the first space, a token can only start at position 0, and does exactly when the first piece is one. */
  lemma AgentStartBeforeSpace(s: string, c: nat, k: nat)
    requires c < |s| && s[c] == ' ' && ' ' !in s[..c] && k <= c
    ensures AgentStartAt(s, k) <==> k == 0 && IsAgentToken(s[..c])
  {
    if k > 0 {
      assert s[..c][k - 1] == s[k - 1];
    } else if c > 1 {
      assert s[..c][1] == s[1];
    }
  }

  /** Without a space, a token can only start at position 0, and does exactly when the line is one. */
  lemma AgentStartWithoutSpace(s: string, k: nat)
    requires ' ' !in s && k < |s|
    ensures AgentStartAt(s, k) <==> k == 0 && IsAgentToken(s)
  {
    if k > 0 { assert s[k - 1] in s; }
  }

  /** The last token start of the rest of the line is the last token start of the line. */
  lemma LastAgentStartAfterSpace(s: string, c: nat, k: nat)
    requires c < |s| && s[c] == ' ' && ' ' !in s[..c]
    requires LastAgentStart(s[c + 1..], k)
    ensures LastAgentStart(s, k + c + 1) && s[k + c + 1..] == s[c + 1..][k..]
  {
    AgentStartAfterSpace(s, c, k);
    forall k' | k + c + 1 < k' < |s| ensures !AgentStartAt(s, k') {
      AgentStartAfterSpace(s, c, k' - c - 1);
    }
  }

  /** No token start in the rest of the line: none after the first space. */
  lemma NoAgentStartAfterSpace(s: string, c: nat, t: string)
    requires c < |s| && s[c] == ' ' && ' ' !in s[..c] && t == s[c + 1..]
    requires forall k :: 0 <= k < |t| ==> !AgentStartAt(t, k)
    ensures forall k :: c < k < |s| ==> !AgentStartAt(s, k)
  {
    forall k | c < k < |s| ensures !AgentStartAt(s, k) {
      AgentStartAfterSpace(s, c, k - c - 1);
    }
  }

  /** `LastQuotedTail` finds the suffix at the last token start, and nothing when there is none. */
  lemma {:induction false} LastQuotedTailSpec(s: string)
    ensures LastQuotedTail(s).None? <==> forall k :: 0 <= k < |s| ==> !AgentStartAt(s, k)
    ensures LastQuotedTail(s).Some? ==> exists k: nat :: LastAgentStart(s, k) && LastQuotedTail(s).value == s[k..]
    decreases |s|
  {
    if ' ' !in s {
      forall k | 0 <= k < |s| ensures AgentStartAt(s, k) <==> k == 0 && IsAgentToken(s) {
        AgentStartWithoutSpace(s, k);
      }
      if IsAgentToken(s) {
        assert LastAgentStart(s, 0) && s == s[0..];
      }
    } else {
      var c := IndexOf(s, ' ');
      var t := s[c + 1..];
      LastQuotedTailSpec(t);
      if LastQuotedTail(t).Some? {
        var k: nat :| LastAgentStart(t, k) && LastQuotedTail(t).value == t[k..];
        LastAgentStartAfterSpace(s, c, k);
        assert LastQuotedTail(s) == LastQuotedTail(t);
      } else {
        NoAgentStartAfterSpace(s, c, t);
        FirstPieceDecides(s, c);
      }
    }
  }

  /** With no token start after the first space, the first piece decides. */
  lemma FirstPieceDecides(s: string, c: nat)
    requires c < |s| && s[c] == ' ' && ' ' !in s[..c]
    requires forall k :: c < k < |s| ==> !AgentStartAt(s, k)
    ensures IsAgentToken(s[..c]) ==> LastAgentStart(s, 0) && s == s[0..]
    ensures !IsAgentToken(s[..c]) ==> forall k :: 0 <= k < |s| ==> !AgentStartAt(s, k)
  {
    forall k | 0 <= k <= c ensures AgentStartAt(s, k) <==> k == 0 && IsAgentToken(s[..c]) {
      AgentStartBeforeSpace(s, c, k);
    }
  }

  /** The index of the last agent token in a list of pieces. */
  function LastAgentIndex(ps: seq<string>): (r: Option<nat>)
    ensures r.Some? ==> r.value < |ps| && IsAgentToken(ps[r.value])
    ensures r.Some? ==> forall j :: r.value < j < |ps| ==> !IsAgentToken(ps[j])
    ensures r.None? <==> forall j :: 0 <= j < |ps| ==> !IsAgentToken(ps[j])
  {
    if ps == [] then None
    else if IsAgentToken(ps[|ps| - 1]) then Some(|ps| - 1)
    else LastAgentIndex(ps[..|ps| - 1])
  }

  lemma LastAgentIndexIs(ps: seq<string>, i: nat)
    requires i < |ps| && IsAgentToken(ps[i])
    requires forall j :: i < j < |ps| ==> !IsAgentToken(ps[j])
    ensures LastAgentIndex(ps) == Some(i)
  {
  }

  /** The pieces of a line with a space: its first piece, then the pieces after the first space. */
  lemma PiecesAtFirstSpace(s: string)
    requires ' ' in s
    ensures var c := IndexOf(s, ' ');
      Pieces(s, ' ') == [s[..c]] + Pieces(s[c + 1..], ' ')
  {
  }

  /** An agent token among the later pieces stays the last one, one index further on. */
  lemma LastAgentInRest(first: string, rest: seq<string>, i: nat)
    requires LastAgentIndex(rest) == Some(i)
    ensures LastAgentIndex([first] + rest) == Some(i + 1)
    ensures ([first] + rest)[i + 1..] == rest[i..]
  {
    var ps := [first] + rest;
    assert ps[i + 1] == rest[i];
    forall j | i + 1 < j < |ps| ensures !IsAgentToken(ps[j]) {
      assert ps[j] == rest[j - 1];
    }
    LastAgentIndexIs(ps, i + 1);
    assert ps[i + 1..] == rest[i..];
  }

  /** With no agent token among the later pieces, the first piece decides. */
  lemma LastAgentFirst(first: string, rest: seq<string>)
    requires LastAgentIndex(rest).None?
    ensures IsAgentToken(first) ==> LastAgentIndex([first] + rest) == Some(0)
    ensures !IsAgentToken(first) ==> LastAgentIndex([first] + rest).None?
  {
    var ps := [first] + rest;
    forall j | 0 < j < |ps| ensures !IsAgentToken(ps[j]) {
      assert ps[j] == rest[j - 1];
    }
    if IsAgentToken(first) {
      LastAgentIndexIs(ps, 0);
    }
  }

  /** The last agent token of the line's pieces starts the suffix `LastQuotedTail` finds. */
  lemma {:induction false} PiecesLastAgent(s: string)
    ensures LastAgentIndex(Pieces(s, ' ')).None? <==> LastQuotedTail(s).None?
    ensures LastAgentIndex(Pieces(s, ' ')).Some? ==>
      LastQuotedTail(s) == Some(Join(Pieces(s, ' ')[LastAgentIndex(Pieces(s, ' ')).value..], ' '))
    decreases |s|
  {
    var ps := Pieces(s, ' ');
    if ' ' !in s {
      assert ps == [s] && ps[0..] == [s];
    } else {
      var c := IndexOf(s, ' ');
      var t := s[c + 1..];
      var rest := Pieces(t, ' ');
      PiecesLastAgent(t);
      PiecesAtFirstSpace(s);
      assert ps == [s[..c]] + rest;
      match LastAgentIndex(rest)
      case Some(i) => LastAgentInRest(s[..c], rest, i);
      case None =>
        LastAgentFirst(s[..c], rest);
        if IsAgentToken(s[..c]) {
          JoinPieces(s, ' ');
          assert ps[0..] == ps;
        }
    }
  }

  /** Empty pieces joined by spaces give only spaces. */
  lemma {:induction false} JoinEmptyPieces(es: seq<string>)
    requires |es| >= 1 && forall j :: 0 <= j < |es| ==> es[j] == []
    ensures AllBlank(Join(es, ' '))
  {
    if |es| > 1 {
      JoinEmptyPieces(es[1..]);
      assert Join(es, ' ') == [' '] + Join(es[1..], ' ');
    }
  }

  /** What the `StringBuilder` holds after appending pieces `i` to `j - 1`, each followed by a space. */
  function BuilderText(ps: seq<string>, i: nat, j: nat): string
    requires i <= j <= |ps|
    decreases j
  {
    if j == i then [] else BuilderText(ps, i, j - 1) + ps[j - 1] + [' ']
  }

  lemma {:induction false} BuilderTextJoin(ps: seq<string>, i: nat, j: nat)
    requires i < j <= |ps|
    ensures BuilderText(ps, i, j) == Join(ps[i..j], ' ') + [' ']
    decreases j
  {
    if j == i + 1 {
      assert ps[i..j] == [ps[i]];
    } else {
      BuilderTextJoin(ps, i, j - 1);
      JoinAppend(ps[i..j - 1], [ps[j - 1]], ' ');
      assert ps[i..j - 1] + [ps[j - 1]] == ps[i..j];
    }
  }

  /** Dropping trailing empty pieces keeps the last agent token where it is. */
  lemma DropTrailingEmptyAgent(ps: seq<string>)
    ensures LastAgentIndex(DropTrailingEmpty(ps)) == LastAgentIndex(ps)
  {
    var parts := DropTrailingEmpty(ps);
    assert forall j :: 0 <= j < |parts| ==> parts[j] == ps[j];
    match LastAgentIndex(parts)
    case Some(i) => LastAgentIndexIs(ps, i);
    case None =>
      assert forall j :: 0 <= j < |ps| ==> !IsAgentToken(ps[j]) by {
        forall j | 0 <= j < |ps| ensures !IsAgentToken(ps[j]) {
          if j < |parts| { assert ps[j] == parts[j]; }
        }
      }
  }

  /** Empty pieces joined on at the end only add spaces, which `trim` removes. */
  lemma JoinEmptyTailTrim(xs: seq<string>, es: seq<string>, ys: seq<string>)
    requires |xs| >= 1 && |es| >= 1 && forall j :: 0 <= j < |es| ==> es[j] == []
    requires ys == xs + es
    ensures Trim(Join(ys, ' ')) == Trim(Join(xs, ' '))
  {
    JoinEmptyPieces(es);
    JoinAppend(xs, es, ' ');
    TrimSpaceAndBlanks(Join(ys, ' '), Join(xs, ' '), Join(es, ' '));
  }

  /** A space and then blanks after a string do not survive `trim`. */
  lemma TrimSpaceAndBlanks(s: string, x: string, blanks: string)
    requires s == x + [' '] + blanks && AllBlank(blanks)
    ensures Trim(s) == Trim(x)
  {
    var tail := [' '] + blanks;
    forall k | 0 <= k < |tail| ensures IsBlank(tail[k]) {
      if k > 0 { assert tail[k] == blanks[k - 1]; }
    }
    assert s == x + tail;
    TrimBlankSuffix(x, tail);
  }

  /** Joining pieces `i` to `n - 1` trims like joining from `i` on when every piece from `n` on is empty. */
  lemma EmptyPiecesTrim(ps: seq<string>, n: nat, i: nat)
    requires i < n <= |ps| && forall j :: n <= j < |ps| ==> ps[j] == []
    ensures Trim(Join(ps[i..n], ' ')) == Trim(Join(ps[i..], ' '))
  {
    if n < |ps| {
      var empties := ps[n..];
      forall j | 0 <= j < |empties| ensures empties[j] == [] {
        assert empties[j] == ps[n + j];
      }
      assert ps[i..n] + empties == ps[i..];
      JoinEmptyTailTrim(ps[i..n], empties, ps[i..]);
    } else {
      assert ps[i..n] == ps[i..];
    }
  }

  /** Joining from piece `i` on, the dropped empty pieces make no difference after `trim`. */
  lemma TrailingEmptiesTrim(ps: seq<string>, i: nat)
    requires i < |DropTrailingEmpty(ps)|
    ensures Trim(Join(DropTrailingEmpty(ps)[i..], ' ')) == Trim(Join(ps[i..], ' '))
  {
    var parts := DropTrailingEmpty(ps);
    assert parts[i..] == ps[i..|parts|];
    EmptyPiecesTrim(ps, |parts|, i);
  }

  /** The builder's text from part `i` on trims to the parts joined by spaces, trimmed. */
  lemma BuilderTrim(parts: seq<string>, i: nat)
    requires i < |parts|
    ensures Trim(BuilderText(parts, i, |parts|)) == Trim(Join(parts[i..], ' '))
  {
    BuilderTextJoin(parts, i, |parts|);
    assert parts[i..|parts|] == parts[i..];
    TrimBlankSuffix(Join(parts[i..], ' '), [' ']);
  }

  /** `s.split(" ")` keeps every agent token, and the text from the last one trims to the same string. */
  lemma SplitLastAgent(s: string)
    ensures var parts := Split(s, ' ');
      (LastAgentIndex(parts).None? <==> LastQuotedTail(s).None?) &&
      (LastAgentIndex(parts).Some? ==>
        Trim(BuilderText(parts, LastAgentIndex(parts).value, |parts|)) == Trim(LastQuotedTail(s).value))
  {
    var parts := Split(s, ' ');
    var ps := Pieces(s, ' ');
    PiecesLastAgent(s);
    if ' ' !in s {
      assert parts == ps == [s];
    } else {
      assert parts == DropTrailingEmpty(ps);
      DropTrailingEmptyAgent(ps);
    }
    if LastAgentIndex(parts).Some? {
      var i := LastAgentIndex(parts).value;
      BuilderTrim(parts, i);
      if ' ' in s {
        TrailingEmptiesTrim(ps, i);
      }
    }
  }

  /**
   * Removal of one leading and one trailing quote, done only when both are
   * present and distinct (compare `StripQuotesAsWritten`).
   */
  function StripQuotes(u: string): string {
    if |u| >= 2 && u[0] == '"' && u[|u| - 1] == '"' then u[1..|u| - 1] else u
  }

  /**
   * The result is the agent itself or the agent without an enclosing pair of
   * quotes, and the pair goes exactly when the agent has one.
   */
  lemma StripQuotesSpec(u: string)
    ensures var r := StripQuotes(u); r == u || u == ['"'] + r + ['"']
    ensures var r := StripQuotes(u); u == ['"'] + r + ['"'] <==> |u| >= 2 && u[0] == '"' && u[|u| - 1] == '"'
  {
    var r := StripQuotes(u);
    if |u| >= 2 && u[0] == '"' && u[|u| - 1] == '"' {
      assert u == ['"'] + u[1..|u| - 1] + ['"'];
    }
  }

  lemma StripQuotesRoundTrip(x: string)
    ensures StripQuotes(['"'] + x + ['"']) == x
  {
    var u := ['"'] + x + ['"'];
    assert u[1..|u| - 1] == x;
  }

  /**
   * The quote removal as src/Main.java writes it: `substring(1, length - 1)`
   * whenever the trimmed agent starts and ends with a quote. For the
   * one-character agent `"` that is `substring(1, 0)`, which throws
   * `StringIndexOutOfBoundsException`; `None` stands for that exception.
   */
  function StripQuotesAsWritten(u: string): (r: Option<string>)
    ensures r.None? <==> u == ['"']
    ensures r.Some? ==> r.value == StripQuotes(u)
  {
    if |u| >= 1 && u[0] == '"' && u[|u| - 1] == '"' then
      if |u| - 1 < 1 then None else Some(u[1..|u| - 1])
    else Some(u)
  }

  /**
   * The agent string `extractUserAgent` returns for a line (with the quote
   * removal corrected): none when no agent token starts anywhere, otherwise
   * the line from the last agent token on, trimmed and unquoted.
   */
  function AgentOf(logLine: string): Option<string> {
    match LastQuotedTail(logLine)
    case None => None
    case Some(t) => Some(StripQuotes(Trim(t)))
  }

  lemma AgentOfSpec(logLine: string)
    ensures AgentOf(logLine).None? <==> forall k :: 0 <= k < |logLine| ==> !AgentStartAt(logLine, k)
    ensures AgentOf(logLine).Some? ==>
      exists k: nat :: LastAgentStart(logLine, k) && AgentOf(logLine).value == StripQuotes(Trim(logLine[k..]))
  {
    LastQuotedTailSpec(logLine);
  }

  /** The agent of a line whose last agent token is part `i` of `split(" ")`. */
  lemma AgentOfLastPart(logLine: string, i: nat)
    requires i < |Split(logLine, ' ')| && IsAgentToken(Split(logLine, ' ')[i])
    requires NoAgentTokenAfter(Split(logLine, ' '), i)
    ensures var parts := Split(logLine, ' ');
      AgentOf(logLine) == Some(StripQuotes(Trim(BuilderText(parts, i, |parts|))))
  {
    LastAgentIndexIs(Split(logLine, ' '), i);
    SplitLastAgent(logLine);
  }

  /** A line none of whose `split(" ")` parts is an agent token has no agent. */
  lemma AgentOfNoPart(logLine: string)
    requires NoAgentTokenAfter(Split(logLine, ' '), -1)
    ensures AgentOf(logLine) == None
  {
    SplitLastAgent(logLine);
  }

  /**
   * A line made of a quote and a tab has an agent token; the trimmed agent is
   * the lone quote, on which the quote removal as written throws.
   */
  lemma QuoteTabLineThrows()
    ensures LastQuotedTail(['"', '\t']) == Some(['"', '\t'])
    ensures Trim(['"', '\t']) == ['"']
    ensures StripQuotesAsWritten(Trim(['"', '\t'])) == None
    ensures AgentOf(['"', '\t']) == Some(['"'])
  {
    var s := ['"', '\t'];
    assert ' ' !in s;
    assert TrimEnd(s) == ['"'] by {
      assert s[..1] == ['"'];
    }
  }

  /** The `StringBuilder` loop of `extractUserAgent`: parts `i` onwards, each followed by a space. */
  method AppendParts(parts: seq<string>, i: nat) returns (builder: string)
    requires i <= |parts|
    ensures builder == BuilderText(parts, i, |parts|)
    ensures i < |parts| ==> builder == Join(parts[i..], ' ') + " "
  {
    builder := "";
    var j := i;
    while j < |parts|
      invariant i <= j <= |parts|
      invariant builder == BuilderText(parts, i, j)
    {
      builder := builder + parts[j] + " ";
      j := j + 1;
    }
    if i < |parts| {
      BuilderTextJoin(parts, i, |parts|);
      assert parts[i..|parts|] == parts[i..];
    }
  }

  /** The quote removal at the end of `extractUserAgent`, done on the trimmed agent. */
  method RemoveQuotes(trimmed: string) returns (userAgent: string)
    ensures userAgent == StripQuotes(trimmed)
  {
    userAgent := trimmed;
    if |userAgent| >= 2 && userAgent[0] == '"' && userAgent[|userAgent| - 1] == '"' {
      userAgent := userAgent[1..|userAgent| - 1];
    }
  }

  /**
   * The backwards scan of `extractUserAgent`: from the last part towards the
   * first, the index of the first part met that is an agent token, or -1.
   */
  method LastAgentPart(parts: seq<string>) returns (i: int)
    ensures -1 <= i < |parts| && NoAgentTokenAfter(parts, i)
    ensures i >= 0 ==> IsAgentToken(parts[i])
  {
    i := |parts| - 1;
    while i >= 0
      invariant -1 <= i < |parts|
      invariant NoAgentTokenAfter(parts, i)
    {
      if |parts[i]| > 0 && parts[i][0] == '"' && |parts[i]| > 1 {
        return;
      }
      i := i - 1;
    }
  }

  /**
   * `extractUserAgent`: scans the space-separated parts from the last one
   * backwards; at the first part that is an agent token it rebuilds the rest
   * of the line from the parts, trims it and removes the surrounding quotes.
   * The result starts at the last agent token of the line and runs to its end;
   * it is absent exactly when no agent token starts anywhere.
   */
  method ExtractUserAgent(logLine: string) returns (agent: Option<string>)
    ensures agent == AgentOf(logLine)
  {
    var parts := Split(logLine, ' ');
    var i := LastAgentPart(parts);
    if i >= 0 {
      var builder := AppendParts(parts, i);
      var userAgent := RemoveQuotes(Trim(builder));
      AgentOfLastPart(logLine, i);
      return Some(userAgent);
    }
    AgentOfNoPart(logLine);
    return None;
  }

  // ---------------------------------------------------------------------------
  // extractBotNameFromUserAgent

  predicate IsNotCloseParen(c: char) { c != ')' }

  /** `\(([^)]+)\)` at `p`: the span of the group. */
  function BracketMatchAt(s: string, p: nat): (r: Option<Span>)
    ensures r.Some? ==> p < |s| && s[p] == '(' && r.value.lo == p + 1 < r.value.hi < |s| && s[r.value.hi] == ')'
    ensures r.Some? ==> forall i :: r.value.lo <= i < r.value.hi ==> s[i] != ')'
  {
    if p < |s| && s[p] == '(' then
      var e := RunEnd(s, p + 1, IsNotCloseParen);
      if p + 1 < e < |s| then Some(Span(p + 1, e)) else None
    else None
  }

  /**
   * The bracket pattern matches at every `(` whose next `)` is not right after
   * it, and captures everything in between.
   */
  lemma BracketMatchAtComplete(s: string, p: nat, e: nat)
    requires p + 1 < e < |s| && s[p] == '(' && s[e] == ')'
    requires forall k :: p + 1 <= k < e ==> s[k] != ')'
    ensures BracketMatchAt(s, p) == Some(Span(p + 1, e))
  {
    RunEndIs(s, p + 1, IsNotCloseParen, e);
  }

  /**
   * The structured step: the second `;`-separated part of the first
   * parenthesised group, trimmed, cut at its first `/` (there must be one) and
   * trimmed again, accepted only when it is exactly one of the two names.
   */
  function StructuredBotName(ua: string): (r: Option<string>)
    ensures r == None || r == Some("Googlebot") || r == Some("YandexBot")
  {
    match FindFrom(|ua|, 0, (p: nat) => BracketMatchAt(ua, p))
    case None => None
    case Some(f) =>
      var parts := Split(ua[f.groups.lo..f.groups.hi], ';');
      if |parts| >= 2 then
        var fragment := Trim(parts[1]);
        if '/' in fragment then
          var botName := Trim(fragment[..IndexOf(fragment, '/')]);
          if botName == "Googlebot" || botName == "YandexBot" then Some(botName) else None
        else None
      else None
  }

  /** A name the structured step returns occurs in the agent string. */
  lemma StructuredNameOccurs(ua: string)
    requires StructuredBotName(ua).Some?
    ensures Contains(ua, StructuredBotName(ua).value)
  {
    var m := (p: nat) => BracketMatchAt(ua, p);
    var f := FindFrom(|ua|, 0, m).value;
    assert m(f.at) == Some(f.groups);
    var g := ua[f.groups.lo..f.groups.hi];
    ContainsSlice(ua, f.groups.lo, f.groups.hi);
    var parts := Split(g, ';');
    var fragment := Trim(parts[1]);
    SplitContained(g, ';', 1);
    TrimContained(parts[1]);
    ContainsTransitive(fragment, parts[1], g);
    ContainsTransitive(fragment, g, ua);
    var k := IndexOf(fragment, '/');
    ContainsSlice(fragment, 0, k);
    assert fragment[0..k] == fragment[..k];
    ContainsTransitive(fragment[..k], fragment, ua);
    TrimContained(fragment[..k]);
    ContainsTransitive(Trim(fragment[..k]), fragment[..k], ua);
  }

  /**
   * The substring fallback: YandexBot is looked for before Googlebot, each
   * with its exact spelling or in the lower-cased agent.
   */
  function FallbackBotName(ua: string): (r: Option<string>)
    ensures r == None || r == Some("Googlebot") || r == Some("YandexBot")
  {
    if Contains(ua, "YandexBot") || Contains(Lower(ua), "yandexbot") then Some("YandexBot")
    else if Contains(ua, "Googlebot") || Contains(Lower(ua), "googlebot") then Some("Googlebot")
    else None
  }

  lemma LowerNames()
    ensures Lower("YandexBot") == "yandexbot" && Lower("Googlebot") == "googlebot"
  {
  }

  /** The exact-spelling tests of the fallback add nothing: it is a case-insensitive search. */
  lemma FallbackIgnoresCase(ua: string)
    ensures FallbackBotName(ua) ==
      if Contains(Lower(ua), "yandexbot") then Some("YandexBot")
      else if Contains(Lower(ua), "googlebot") then Some("Googlebot")
      else None
  {
    LowerNames();
    if Contains(ua, "YandexBot") { ContainsLower(ua, "YandexBot"); }
    if Contains(ua, "Googlebot") { ContainsLower(ua, "Googlebot"); }
  }

  /** `extractBotNameFromUserAgent`: the structured step when it names a bot, otherwise the fallback. */
  function ExtractBotName(ua: string): (r: Option<string>)
    ensures r == None || r == Some("Googlebot") || r == Some("YandexBot")
  {
    match StructuredBotName(ua)
    case Some(name) => Some(name)
    case None => FallbackBotName(ua)
  }

  /**
   * The name found is one of the two crawlers; a name is found exactly when
   * the lower-cased agent mentions one of them; and without a structured name
   * a mention of yandexbot wins.
   */
  lemma ExtractBotNameSpec(ua: string)
    ensures var r := ExtractBotName(ua);
      && (r == None || r == Some("Googlebot") || r == Some("YandexBot"))
      && (r.Some? <==> Contains(Lower(ua), "googlebot") || Contains(Lower(ua), "yandexbot"))
      && (StructuredBotName(ua).None? && Contains(Lower(ua), "yandexbot") ==> r == Some("YandexBot"))
  {
    FallbackIgnoresCase(ua);
    match StructuredBotName(ua)
    case Some(name) =>
      StructuredNameOccurs(ua);
      LowerNames();
      ContainsLower(ua, name);
    case None =>
  }

  /** An agent whose first group is `a;Googlebot/` and which mentions YandexBot after it. */
  const MixedAgent: string := "(" + MixedGroup + ")" + "YandexBot"

  /** The first group of `MixedAgent`: a product token, then `Googlebot/`. */
  const MixedGroup: string := "a;Googlebot/"

  lemma MixedAgentGroupParts()
    ensures Split("a;Googlebot/", ';') == ["a", "Googlebot/"]
  {
    var g := "a;Googlebot/";
    assert g[1] == ';' && g[0] != ';';
    assert IndexOf(g, ';') == 1;
    assert g[..1] == "a" && g[2..] == "Googlebot/";
    NoSemicolonInName();
  }

  lemma NoSemicolonInName()
    ensures Pieces("Googlebot/", ';') == ["Googlebot/"]
  {
    var f := "Googlebot/";
    forall i | 0 <= i < |f| ensures f[i] != ';' {
    }
    PiecesWithoutSeparator(f, ';');
  }

  lemma MixedAgentFragment()
    ensures var fragment := Trim("Googlebot/");
      '/' in fragment && Trim(fragment[..IndexOf(fragment, '/')]) == "Googlebot"
  {
    TrimUnchanged("Googlebot/");
    SlashInFragment();
    TrimUnchanged("Googlebot");
  }

  lemma SlashInFragment()
    ensures '/' in "Googlebot/" && IndexOf("Googlebot/", '/') == 9 && "Googlebot/"[..9] == "Googlebot"
  {
    var f := "Googlebot/";
    assert f[9] == '/' && '/' !in f[..9];
  }

  /** A string with no blank at either end is its own trim. */
  lemma TrimUnchanged(s: string)
    requires s != [] && !IsBlank(s[0]) && !IsBlank(s[|s| - 1])
    ensures Trim(s) == s
  {
  }

  /** A group `g` without `)` at the start of an agent is matched at 0. */
  lemma BracketAtStart(g: string, rest: string)
    requires g != [] && forall i :: 0 <= i < |g| ==> g[i] != ')'
    ensures var ua := ['('] + g + [')'] + rest;
      BracketMatchAt(ua, 0) == Some(Span(1, |g| + 1)) && ua[1..|g| + 1] == g
  {
    var ua := ['('] + g + [')'] + rest;
    forall k | 1 <= k < |g| + 1 ensures IsNotCloseParen(ua[k]) {
      assert ua[k] == g[k - 1];
    }
    assert ua[|g| + 1] == ')';
    RunEndIs(ua, 1, IsNotCloseParen, |g| + 1);
    assert ua[1..|g| + 1] == g;
  }

  lemma NoCloseParenInGroup()
    ensures forall i :: 0 <= i < |MixedGroup| ==> MixedGroup[i] != ')'
  {
    var g := MixedGroup;
    forall i | 0 <= i < |g| ensures g[i] != ')' {
    }
  }

  lemma MixedAgentBracket()
    ensures BracketMatchAt(MixedAgent, 0) == Some(Span(1, 13))
    ensures MixedAgent[1..13] == MixedGroup
  {
    NoCloseParenInGroup();
    BracketAtStart(MixedGroup, "YandexBot");
  }

  /** A pattern matching at the very start is found there. */
  lemma FindFromFirst<T>(n: nat, m: nat -> Option<T>)
    requires 0 < n && m(0).Some?
    ensures FindFrom(n, 0, m) == Some(Found(0, m(0).value))
  {
  }

  lemma MixedAgentStructured()
    ensures StructuredBotName(MixedAgent) == Some("Googlebot")
  {
    var ua := MixedAgent;
    var m := (p: nat) => BracketMatchAt(ua, p);
    MixedAgentBracket();
    FindFromFirst(|ua|, m);
    MixedAgentGroupParts();
    MixedAgentFragment();
  }

  lemma MixedAgentFallback()
    ensures FallbackBotName(MixedAgent) == Some("YandexBot")
  {
    assert OccursAt(MixedAgent, "YandexBot", 14);
  }

  /**
   * The structured step wins over the fallback: an agent whose first group
   * names Googlebot is counted as Googlebot although it also mentions YandexBot,
   * which the fallback alone would have preferred.
   */
  lemma StructuredStepWins()
    ensures ExtractBotName(MixedAgent) == Some("Googlebot") && FallbackBotName(MixedAgent) == Some("YandexBot")
  {
    MixedAgentStructured();
    MixedAgentFallback();
  }

  // ---------------------------------------------------------------------------
  // processAccessLog

  /** The longest line `processAccessLog` accepts. */
  const MaxLineLength: nat := 1024

  /** The crawler a line is counted for, if any. */
  function LineBot(logLine: string): (r: Option<string>)
    ensures r == None || r == Some("Googlebot") || r == Some("YandexBot")
    ensures AgentOf(logLine).None? ==> r.None?
  {
    match AgentOf(logLine)
    case None => None
    case Some(agent) => ExtractBotName(agent)
  }

  /** How many of the lines are counted for crawler `name`. */
  function CountBot(lines: seq<string>, name: string): (n: nat)
    ensures n <= |lines|
  {
    if lines == [] then 0
    else CountBot(lines[..|lines| - 1], name) + (if LineBot(lines[|lines| - 1]) == Some(name) then 1 else 0)
  }

  /** Counting over one more line. */
  lemma CountBotStep(lines: seq<string>, n: nat, name: string)
    requires n < |lines|
    ensures CountBot(lines[..n + 1], name) == CountBot(lines[..n], name) + (if LineBot(lines[n]) == Some(name) then 1 else 0)
  {
    assert lines[..n + 1][..n] == lines[..n];
  }

  /** Each line is counted for at most one crawler. */
  lemma {:induction false} BotCountsBounded(lines: seq<string>)
    ensures CountBot(lines, "Googlebot") + CountBot(lines, "YandexBot") <= |lines|
  {
    if lines != [] {
      BotCountsBounded(lines[..|lines| - 1]);
    }
  }

  /** What `processAccessLog` ends with: the three counters, or the first over-long line. */
  datatype Outcome =
    | Report(totalLines: nat, yandexBotCount: nat, googleBotCount: nat)
    | LineTooLong(lineNumber: nat, length: nat)

  /**
   * The counting step of `processAccessLog` for one line: the agent, then the
   * crawler it names, if any, and the counter of that crawler goes up by one.
   */
  method CountLine(line: string, googleBotCount: nat, yandexBotCount: nat) returns (google: nat, yandex: nat)
    ensures google == googleBotCount + if LineBot(line) == Some("Googlebot") then 1 else 0
    ensures yandex == yandexBotCount + if LineBot(line) == Some("YandexBot") then 1 else 0
  {
    google, yandex := googleBotCount, yandexBotCount;
    var userAgent := ExtractUserAgent(line);
    if userAgent.Some? {
      var botName := ExtractBotName(userAgent.value);
      if botName == Some("Googlebot") {
        google := google + 1;
      } else if botName == Some("YandexBot") {
        yandex := yandex + 1;
      }
    }
  }

  /**
   * `processAccessLog` over the lines of the file: stops at the first line
   * longer than 1024 UTF-16 code units (Java's `length()`), naming it by its
   * 1-based number and that length; otherwise
   * counts every line and the lines whose agent names each crawler.
   */
  method ProcessAccessLog(lines: seq<string>) returns (outcome: Outcome)
    ensures outcome.Report? <==> forall j :: 0 <= j < |lines| ==> Utf16Length(lines[j]) <= MaxLineLength
    ensures outcome.LineTooLong? ==>
      var k := outcome.lineNumber - 1;
      0 <= k < |lines| && outcome.length == Utf16Length(lines[k]) > MaxLineLength &&
      forall j :: 0 <= j < k ==> Utf16Length(lines[j]) <= MaxLineLength
    ensures outcome.Report? ==>
      outcome == Report(|lines|, CountBot(lines, "YandexBot"), CountBot(lines, "Googlebot"))
  {
    var totalLines := 0;
    var yandexBotCount := 0;
    var googleBotCount := 0;
    while totalLines < |lines|
      invariant 0 <= totalLines <= |lines|
      invariant forall j :: 0 <= j < totalLines ==> Utf16Length(lines[j]) <= MaxLineLength
      invariant yandexBotCount == CountBot(lines[..totalLines], "YandexBot")
      invariant googleBotCount == CountBot(lines[..totalLines], "Googlebot")
    {
      var line := lines[totalLines];
      if Utf16Length(line) > MaxLineLength {
        return LineTooLong(totalLines + 1, Utf16Length(line));
      }
      CountBotStep(lines, totalLines, "Googlebot");
      CountBotStep(lines, totalLines, "YandexBot");
      totalLines := totalLines + 1;
      googleBotCount, yandexBotCount := CountLine(line, googleBotCount, yandexBotCount);
    }
    assert lines[..totalLines] == lines;
    return Report(totalLines, yandexBotCount, googleBotCount);
  }
}
