/**
 * One access-log line turned into a record (src/LogEntry.java). Every field is
 * extracted from the whole line by its own pattern, independently of the
 * others, and every field has a fallback, so parsing never fails.
 *
 * Each pattern is modelled as a `...MatchAt(s, p)` function, which says whether
 * the pattern matches starting at position `p` and where its group lies, and
 * `Matcher.find()` as `FindFrom`, which takes the leftmost such `p`. In these
 * patterns backtracking never turns a failed greedy attempt into a match, so
 * each greedy quantifier is the maximal run (`RunEnd`).
 */
module LogEntries {
  import opened Text
  import opened UserAgents

  /** The constants of the `HttpMethod` enum. */
  datatype HttpMethod = GET | POST | PUT | DELETE | HEAD | OPTIONS | PATCH | TRACE | CONNECT | UNKNOWN

  /** The record built by the `LogEntry(String)` constructor; `time` is supplied by the caller. */
  datatype LogEntry = LogEntry(
    ipAddr: string,
    time: int,
    httpMethod: HttpMethod,
    path: string,
    responseCode: nat,
    responseSize: nat,
    referer: string,
    userAgent: UserAgent)

  /** `Integer.MAX_VALUE` */
  const IntMax: nat := 0x7FFF_FFFF

  function MethodName(m: HttpMethod): string {
    match m
    case GET => "GET"
    case POST => "POST"
    case PUT => "PUT"
    case DELETE => "DELETE"
    case HEAD => "HEAD"
    case OPTIONS => "OPTIONS"
    case PATCH => "PATCH"
    case TRACE => "TRACE"
    case CONNECT => "CONNECT"
    case UNKNOWN => "UNKNOWN"
  }

  /**
   * `HttpMethod.valueOf(name)`, with the `IllegalArgumentException` for a name
   * that is no constant's mapped to `UNKNOWN`.
   */
  function MethodFromName(name: string): (m: HttpMethod)
    ensures MethodName(m) == name || (m == UNKNOWN && forall k :: MethodName(k) != name)
  {
    if name == "GET" then GET
    else if name == "POST" then POST
    else if name == "PUT" then PUT
    else if name == "DELETE" then DELETE
    else if name == "HEAD" then HEAD
    else if name == "OPTIONS" then OPTIONS
    else if name == "PATCH" then PATCH
    else if name == "TRACE" then TRACE
    else if name == "CONNECT" then CONNECT
    else UNKNOWN
  }

  /** A name looks up to `UNKNOWN` exactly when no other constant has it. */
  lemma MethodFromNameUnknown(name: string)
    ensures MethodFromName(name) == UNKNOWN <==> forall k :: k != UNKNOWN ==> MethodName(k) != name
    ensures MethodFromName(name) != UNKNOWN ==> MethodName(MethodFromName(name)) == name
  {
  }

  lemma MethodNameRoundTrip(m: HttpMethod)
    ensures MethodFromName(MethodName(m)) == m
  {
  }

  // ---------------------------------------------------------------------------
  // Client address: ^(\d+\.\d+\.\d+\.\d+)

  /** `\d+`: a non-empty run of digits. */
  predicate IsDigitRun(r: string) { r != [] && AllDigits(r) }

  /** Four digit runs separated by exactly three dots. */
  predicate IsDottedQuad(t: string) {
    var ps := Pieces(t, '.');
    |ps| == 4 && IsDigitRun(ps[0]) && IsDigitRun(ps[1]) && IsDigitRun(ps[2]) && IsDigitRun(ps[3])
  }

  /** `\d+\.` at position `i`: the position just after the dot. */
  function DigitsThenDot(s: string, i: nat): (r: Option<nat>)
    requires i <= |s|
    ensures r.Some? ==> i + 1 < r.value <= |s| && s[r.value - 1] == '.' && AllDigits(s[i..r.value - 1])
  {
    var e := RunEnd(s, i, IsDigit);
    if i < e < |s| && s[e] == '.' then
      assert forall k :: 0 <= k < e - i ==> s[i..e][k] == s[i + k];
      Some(e + 1)
    else None
  }

  /** The `^(\d+\.\d+\.\d+\.\d+)` pattern: the matched prefix, if any. */
  function ScanIpAddress(s: string): (r: Option<string>)
    ensures r.Some? ==> |r.value| <= |s| && r.value == s[..|r.value|]
    ensures r.Some? ==> |r.value| == |s| || !IsDigit(s[|r.value|])
  {
    match DigitsThenDot(s, 0)
    case None => None
    case Some(a) =>
      match DigitsThenDot(s, a)
      case None => None
      case Some(b) =>
        match DigitsThenDot(s, b)
        case None => None
        case Some(c) =>
          var e := RunEnd(s, c, IsDigit);
          if e == c then None else Some(s[..e])
  }

  /** `parseIpAddress`: the dotted quad at the start of the line, or "Unknown". */
  function ParseIpAddress(logLine: string): (ip: string)
    ensures ip == "Unknown" || (IsDottedQuad(ip) && |ip| <= |logLine| && ip == logLine[..|ip|])
    ensures ip != "Unknown" ==> |ip| == |logLine| || !IsDigit(logLine[|ip|])
  {
    match ScanIpAddress(logLine)
    case Some(ip) =>
      ScannedIpIsDottedQuad(logLine);
      ip
    case None => "Unknown"
  }

  lemma NoDotInDigits(t: string)
    requires AllDigits(t)
    ensures '.' !in t
  {
  }

  /** The pieces of two dot-free runs joined by a dot. */
  lemma PairPieces(r3: string, r4: string)
    requires '.' !in r3 && '.' !in r4
    ensures Pieces(r3 + ['.'] + r4, '.') == [r3, r4]
  {
    assert Pieces(r4, '.') == [r4];
    PiecesAfterFirst(r3, r4, '.');
  }

  /** The pieces of three dot-free runs joined by dots. */
  lemma TriplePieces(r2: string, r3: string, r4: string)
    requires '.' !in r2 && '.' !in r3 && '.' !in r4
    ensures Pieces(r2 + ['.'] + (r3 + ['.'] + r4), '.') == [r2, r3, r4]
  {
    PairPieces(r3, r4);
    PiecesAfterFirst(r2, r3 + ['.'] + r4, '.');
  }

  /** The pieces of four dot-free runs joined by dots are those runs. */
  lemma QuadPieces(r1: string, r2: string, r3: string, r4: string)
    requires '.' !in r1 && '.' !in r2 && '.' !in r3 && '.' !in r4
    ensures Pieces(r1 + ['.'] + (r2 + ['.'] + (r3 + ['.'] + r4)), '.') == [r1, r2, r3, r4]
  {
    TriplePieces(r2, r3, r4);
    PiecesAfterFirst(r1, r2 + ['.'] + (r3 + ['.'] + r4), '.');
  }

  /** Four non-empty digit runs joined by dots form a dotted quad. */
  lemma JoinedRunsAreDottedQuad(r1: string, r2: string, r3: string, r4: string)
    requires IsDigitRun(r1) && IsDigitRun(r2) && IsDigitRun(r3) && IsDigitRun(r4)
    ensures IsDottedQuad(r1 + ['.'] + (r2 + ['.'] + (r3 + ['.'] + r4)))
  {
    NoDotInDigits(r1);
    NoDotInDigits(r2);
    NoDotInDigits(r3);
    NoDotInDigits(r4);
    QuadPieces(r1, r2, r3, r4);
  }

  /** A prefix holding three dots is the four runs between them joined by dots. */
  lemma DottedSlices(s: string, a: nat, b: nat, c: nat, e: nat)
    requires 0 < a < b < c <= e <= |s|
    requires s[a - 1] == '.' && s[b - 1] == '.' && s[c - 1] == '.'
    ensures s[..e] == s[..a - 1] + ['.'] + (s[a..b - 1] + ['.'] + (s[b..c - 1] + ['.'] + s[c..e]))
  {
    assert s[..e] == s[..a - 1] + [s[a - 1]] + s[a..b - 1] + [s[b - 1]] + s[b..c - 1] + [s[c - 1]] + s[c..e];
  }

  /** The prefix `ScanIpAddress` accepts is a dotted quad. */
  lemma ScannedIpIsDottedQuad(s: string)
    requires ScanIpAddress(s).Some?
    ensures IsDottedQuad(ScanIpAddress(s).value)
  {
    var a := DigitsThenDot(s, 0).value;
    var b := DigitsThenDot(s, a).value;
    var c := DigitsThenDot(s, b).value;
    var e := RunEnd(s, c, IsDigit);
    assert ScanIpAddress(s).value == s[..e];
    assert AllDigits(s[c..e]) by {
      forall k | 0 <= k < e - c ensures IsDigit(s[c..e][k]) { assert s[c..e][k] == s[c + k]; }
    }
    assert s[..a - 1] == s[0..a - 1];
    DottedSlices(s, a, b, c, e);
    JoinedRunsAreDottedQuad(s[..a - 1], s[a..b - 1], s[b..c - 1], s[c..e]);
  }

  /** Where the runs and dots of a joined dotted quad sit. */
  lemma QuadSlices(t: string, p1: string, p2: string, p3: string, p4: string)
    requires p4 != []
    requires t == p1 + ['.'] + (p2 + ['.'] + (p3 + ['.'] + p4))
    ensures var a, b, c := |p1| + 1, |p1| + |p2| + 2, |p1| + |p2| + |p3| + 3;
      c < |t| && t[..|p1|] == p1 && t[|p1|] == '.' && t[a..a + |p2|] == p2 && t[a + |p2|] == '.'
      && t[b..b + |p3|] == p3 && t[b + |p3|] == '.' && t[c] == p4[0]
  {
  }

  /** `\d+\.` matches at `i` when the line holds the digit run `p` there followed by a dot. */
  lemma DigitsThenDotOn(s: string, i: nat, p: string)
    requires p != [] && AllDigits(p)
    requires i + |p| < |s| && s[i..i + |p|] == p && s[i + |p|] == '.'
    ensures DigitsThenDot(s, i) == Some(i + |p| + 1)
  {
    forall k | i <= k < i + |p| ensures IsDigit(s[k]) { assert s[k] == p[k - i]; }
    RunEndIs(s, i, IsDigit, i + |p|);
  }

  /** A dotted quad is its four pieces joined by dots. */
  lemma DottedQuadJoined(t: string)
    requires IsDottedQuad(t)
    ensures var ps := Pieces(t, '.'); t == ps[0] + ['.'] + (ps[1] + ['.'] + (ps[2] + ['.'] + ps[3]))
  {
    var ps := Pieces(t, '.');
    JoinPieces(t, '.');
    assert Join(ps[1..][1..], '.') == ps[2] + ['.'] + ps[3] by {
      assert ps[1..][1..][1..] == [ps[3]];
    }
  }

  /** Three `\d+\.` steps followed by a digit are enough for the address pattern. */
  lemma ScanIpAddressOn(s: string, a: nat, b: nat, c: nat)
    requires a <= |s| && b <= |s|
    requires DigitsThenDot(s, 0) == Some(a) && DigitsThenDot(s, a) == Some(b) && DigitsThenDot(s, b) == Some(c)
    requires c < |s| && IsDigit(s[c])
    ensures ScanIpAddress(s).Some?
  {
    assert RunEnd(s, c, IsDigit) > c;
  }

  /** A slice of a prefix is the same slice of the whole line. */
  lemma PrefixSlice(s: string, t: string, i: nat, j: nat)
    requires |t| <= |s| && t == s[..|t|] && i <= j <= |t|
    ensures s[i..j] == t[i..j]
  {
  }

  /** A line that starts with four digit runs joined by dots matches the address pattern. */
  lemma JoinedRunsPrefixScanned(s: string, t: string, p1: string, p2: string, p3: string, p4: string)
    requires |t| <= |s| && t == s[..|t|]
    requires t == p1 + ['.'] + (p2 + ['.'] + (p3 + ['.'] + p4))
    requires p1 != [] && p2 != [] && p3 != [] && p4 != []
    requires AllDigits(p1) && AllDigits(p2) && AllDigits(p3) && AllDigits(p4)
    ensures ScanIpAddress(s).Some?
  {
    QuadSlices(t, p1, p2, p3, p4);
    var a, b, c := |p1| + 1, |p1| + |p2| + 2, |p1| + |p2| + |p3| + 3;
    PrefixSlice(s, t, 0, |p1|);
    assert t[0..|p1|] == t[..|p1|];
    DigitsThenDotOn(s, 0, p1);
    PrefixSlice(s, t, a, a + |p2|);
    DigitsThenDotOn(s, a, p2);
    PrefixSlice(s, t, b, b + |p3|);
    DigitsThenDotOn(s, b, p3);
    assert IsDigit(s[c]) by { assert s[c] == t[c] == p4[0]; }
    ScanIpAddressOn(s, a, b, c);
  }

  /** A line that starts with a dotted quad is never given the "Unknown" fallback. */
  lemma DottedQuadPrefixScanned(s: string, k: nat)
    requires k <= |s| && IsDottedQuad(s[..k])
    ensures ScanIpAddress(s).Some?
  {
    var t := s[..k];
    var ps := Pieces(t, '.');
    DottedQuadJoined(t);
    assert ps[0] != [] && ps[1] != [] && ps[2] != [] && ps[3] != [];
    assert AllDigits(ps[0]) && AllDigits(ps[1]) && AllDigits(ps[2]) && AllDigits(ps[3]);
    JoinedRunsPrefixScanned(s, t, ps[0], ps[1], ps[2], ps[3]);
  }

  /**
   * `parseIpAddress` answers "Unknown" exactly when no prefix of the line is a
   * dotted quad; otherwise it answers a prefix of the line that is one, and
   * the greedy last `\d+` leaves no digit right after it.
   */
  lemma IpAddressFallback(logLine: string)
    ensures ParseIpAddress(logLine) == "Unknown" <==>
      forall k :: 0 <= k <= |logLine| ==> !IsDottedQuad(logLine[..k])
    ensures ParseIpAddress(logLine) != "Unknown" ==>
      var ip := ParseIpAddress(logLine);
      IsDottedQuad(ip) && |ip| <= |logLine| && ip == logLine[..|ip|] &&
      (|ip| == |logLine| || !IsDigit(logLine[|ip|]))
  {
    match ScanIpAddress(logLine)
    case Some(ip) =>
      ScannedIpIsDottedQuad(logLine);
      assert ip != "Unknown" by { assert IsDigit(ip[0]); }
      assert logLine[..|ip|] == ip;
    case None =>
      forall k | 0 <= k <= |logLine| ensures !IsDottedQuad(logLine[..k]) {
        if IsDottedQuad(logLine[..k]) { DottedQuadPrefixScanned(logLine, k); }
      }
  }

  // ---------------------------------------------------------------------------
  // Method: "([A-Z]+)

  predicate AllUpper(s: string, lo: nat, hi: nat)
    requires lo <= hi <= |s|
  {
    forall k :: lo <= k < hi ==> IsUpper(s[k])
  }

  /** A quote followed by an uppercase letter starts at `p`. */
  predicate QuoteUpperAt(s: string, p: nat) {
    p + 1 < |s| && s[p] == '"' && IsUpper(s[p + 1])
  }

  /** `"([A-Z]+)` at `p`: the maximal uppercase run after the quote. */
  function MethodMatchAt(s: string, p: nat): (r: Option<Span>)
    ensures r.Some? <==> QuoteUpperAt(s, p)
    ensures r.Some? ==> r.value.lo == p + 1 < r.value.hi <= |s| && AllUpper(s, r.value.lo, r.value.hi)
    ensures r.Some? ==> r.value.hi == |s| || !IsUpper(s[r.value.hi])
  {
    if QuoteUpperAt(s, p) then Some(Span(p + 1, RunEnd(s, p + 1, IsUpper))) else None
  }

  /** `p` is the leftmost position where a quote is followed by an uppercase letter. */
  predicate FirstQuoteUpper(s: string, p: nat) {
    QuoteUpperAt(s, p) && forall q :: 0 <= q < p ==> !QuoteUpperAt(s, q)
  }

  /** The group of the first match of `"([A-Z]+)` in the line. */
  function MethodToken(s: string): (t: Option<string>)
    ensures t.None? <==> forall p :: 0 <= p < |s| ==> !QuoteUpperAt(s, p)
    ensures t.Some? ==> exists p: nat :: FirstQuoteUpper(s, p) && t.value == s[p + 1..RunEnd(s, p + 1, IsUpper)]
  {
    var m := (p: nat) => MethodMatchAt(s, p);
    assert forall p :: m(p).None? <==> !QuoteUpperAt(s, p);
    match FindFrom(|s|, 0, m)
    case None => None
    case Some(f) =>
      assert FirstQuoteUpper(s, f.at);
      Some(s[f.groups.lo..f.groups.hi])
  }

  /**
   * `parseMethod`: `UNKNOWN` exactly when no quote is followed by an uppercase
   * letter, or when the first such maximal uppercase run names no constant.
   */
  function ParseMethod(logLine: string): (m: HttpMethod)
    ensures m == UNKNOWN <==>
      MethodToken(logLine).None? || forall k :: k != UNKNOWN ==> MethodName(k) != MethodToken(logLine).value
    ensures m != UNKNOWN ==> MethodToken(logLine) == Some(MethodName(m))
  {
    match MethodToken(logLine)
    case None => UNKNOWN
    case Some(name) =>
      MethodFromNameUnknown(name);
      MethodFromName(name)
  }

  // ---------------------------------------------------------------------------
  // Path: "[A-Z]+\s+([^\s?]+)

  /** A char the path group `[^\s?]` admits. */
  predicate IsPathChar(c: char) { !IsSpace(c) && c != '?' }

  /** `"[A-Z]+\s+([^\s?]+)` at `p`. */
  function PathMatchAt(s: string, p: nat): (r: Option<Span>)
    ensures r.Some? ==> QuoteUpperAt(s, p)
    ensures r.Some? ==> 0 < r.value.lo < r.value.hi <= |s| && IsSpace(s[r.value.lo - 1])
    ensures r.Some? ==> r.value.lo == RunEnd(s, RunEnd(s, p + 1, IsUpper), IsSpace)
    ensures r.Some? ==> r.value.hi == RunEnd(s, r.value.lo, IsPathChar)
  {
    if QuoteUpperAt(s, p) then
      var u := RunEnd(s, p + 1, IsUpper);
      var w := RunEnd(s, u, IsSpace);
      var e := RunEnd(s, w, IsPathChar);
      if u < w < e then Some(Span(w, e)) else None
    else None
  }

  /**
   * The path pattern matches at every opening quote followed by uppercase
   * letters, whitespace and a path char, and captures from that path char.
   */
  lemma PathMatchAtComplete(s: string, p: nat, u: nat, w: nat)
    requires p + 1 < u < w < |s| && s[p] == '"'
    requires forall k :: p + 1 <= k < u ==> IsUpper(s[k])
    requires forall k :: u <= k < w ==> IsSpace(s[k])
    requires IsPathChar(s[w])
    ensures PathMatchAt(s, p).Some? && PathMatchAt(s, p).value.lo == w
  {
    RunEndIs(s, p + 1, IsUpper, u);
    RunEndIs(s, u, IsSpace, w);
  }

  /** `t` is a maximal run of path chars in `s` at `w`, right after whitespace. */
  predicate PathTokenAt(s: string, t: string, w: nat) {
    0 < w && OccursAt(s, t, w) && IsSpace(s[w - 1]) && (w + |t| == |s| || !IsPathChar(s[w + |t|]))
  }

  /** The span a path match captures is a path token. */
  lemma PathMatchIsToken(s: string, p: nat)
    requires PathMatchAt(s, p).Some?
    ensures var sp := PathMatchAt(s, p).value; var t := s[sp.lo..sp.hi];
      t != [] && PathTokenAt(s, t, sp.lo) && forall i :: 0 <= i < |t| ==> IsPathChar(t[i])
  {
    var sp := PathMatchAt(s, p).value;
    var t := s[sp.lo..sp.hi];
    assert forall i :: 0 <= i < |t| ==> t[i] == s[sp.lo + i];
  }

  /** `p` is the leftmost position where the path pattern matches. */
  predicate FirstPathAt(s: string, p: nat) {
    PathMatchAt(s, p).Some? && forall q :: 0 <= q < p ==> PathMatchAt(s, q).None?
  }

  /** The leftmost match of the path pattern, if any. */
  function FirstPath(s: string): (r: Option<Found<Span>>)
    ensures r.None? <==> forall p :: 0 <= p < |s| ==> PathMatchAt(s, p).None?
    ensures r.Some? ==> FirstPathAt(s, r.value.at) && PathMatchAt(s, r.value.at) == Some(r.value.groups)
  {
    var m := (p: nat) => PathMatchAt(s, p);
    assert forall p :: m(p) == PathMatchAt(s, p);
    FindFrom(|s|, 0, m)
  }

  /**
   * `parsePath`: "" when the pattern matches nowhere; otherwise the group of
   * the leftmost match, a non-empty token without whitespace or `?` that
   * directly follows whitespace and runs as far as it can.
   */
  function ParsePath(logLine: string): (path: string)
    ensures path == [] <==> forall p :: 0 <= p < |logLine| ==> PathMatchAt(logLine, p).None?
    ensures forall i :: 0 <= i < |path| ==> IsPathChar(path[i])
    ensures path != [] ==> exists w: nat :: PathTokenAt(logLine, path, w)
    ensures path != [] ==>
      exists p: nat :: FirstPathAt(logLine, p) &&
        var sp := PathMatchAt(logLine, p).value; path == logLine[sp.lo..sp.hi]
  {
    match FirstPath(logLine)
    case None => []
    case Some(f) =>
      var sp := f.groups;
      PathMatchIsToken(logLine, f.at);
      logLine[sp.lo..sp.hi]
  }

  /**
   * When the first quote followed by an uppercase letter opens a well-formed
   * request (method, whitespace, path), the method and the path are both
   * taken from that request.
   */
  lemma MethodAndPathFromSameRequest(logLine: string, p: nat)
    requires FirstQuoteUpper(logLine, p)
    requires PathMatchAt(logLine, p).Some?
    ensures MethodToken(logLine) == Some(logLine[p + 1..RunEnd(logLine, p + 1, IsUpper)])
    ensures var sp := PathMatchAt(logLine, p).value; ParsePath(logLine) == logLine[sp.lo..sp.hi]
  {
    MethodAtFirstQuote(logLine, p);
    PathAtFirstQuote(logLine, p);
  }

  /** The method comes from the first quote followed by an uppercase letter. */
  lemma MethodAtFirstQuote(logLine: string, p: nat)
    requires FirstQuoteUpper(logLine, p)
    ensures MethodToken(logLine) == Some(logLine[p + 1..RunEnd(logLine, p + 1, IsUpper)])
  {
    var mm := (q: nat) => MethodMatchAt(logLine, q);
    assert mm(p).Some?;
    assert FindFrom(|logLine|, 0, mm).value.at == p;
  }

  /** The path comes from the first quote followed by an uppercase letter when a path follows it. */
  lemma PathAtFirstQuote(logLine: string, p: nat)
    requires FirstQuoteUpper(logLine, p)
    requires PathMatchAt(logLine, p).Some?
    ensures var sp := PathMatchAt(logLine, p).value; ParsePath(logLine) == logLine[sp.lo..sp.hi]
  {
    var m := (q: nat) => PathMatchAt(logLine, q);
    assert m(p).Some?;
    assert FindFrom(|logLine|, 0, m).value.at == p;
  }

  // ---------------------------------------------------------------------------
  // Status code: "\s+(\d{3})\s+  and  response size: \s+(\d+)\s+"

  function Pow10(n: nat): (r: nat)
    ensures r >= 1
  {
    if n == 0 then 1 else 10 * Pow10(n - 1)
  }

  function DigitValue(c: char): nat
    requires IsDigit(c)
  {
    c as int - '0' as int
  }

  /** `Integer.parseInt` of an unsigned ASCII digit string, before its range check. */
  function DigitsValue(ds: string): (v: nat)
    requires AllDigits(ds)
    ensures v < Pow10(|ds|)
  {
    if ds == [] then 0
    else
      var init := ds[..|ds| - 1];
      assert AllDigits(init) by {
        forall k | 0 <= k < |init| ensures IsDigit(init[k]) { assert init[k] == ds[k]; }
      }
      DigitsValue(init) * 10 + DigitValue(ds[|ds| - 1])
  }

  function DigitChar(d: nat): (c: char)
    requires d < 10
    ensures IsDigit(c) && DigitValue(c) == d
  {
    ('0' as int + d) as char
  }

  /** The three-digit decimal spelling of a code below 1000, leading zeros included. */
  function ThreeDigits(code: nat): (ds: string)
    requires code < 1000
    ensures |ds| == 3 && AllDigits(ds)
  {
    [DigitChar(code / 100), DigitChar(code / 10 % 10), DigitChar(code % 10)]
  }

  /** Reading back the three-digit spelling of a code gives the code. */
  lemma ThreeDigitsRoundTrip(code: nat)
    requires code < 1000
    ensures DigitsValue(ThreeDigits(code)) == code
  {
    var ds := ThreeDigits(code);
    var h, t, u := code / 100, code / 10 % 10, code % 10;
    assert ds[..2][..1] == ds[..1];
    assert DigitsValue(ds[..1]) == h;
    assert DigitsValue(ds[..2]) == h * 10 + t;
    assert DigitsValue(ds) == (h * 10 + t) * 10 + u;
    DecimalDigits(code);
  }

  /** A number below 1000 is its hundreds, tens and units digits recombined. */
  lemma DecimalDigits(code: nat)
    requires code < 1000
    ensures (code / 100 * 10 + code / 10 % 10) * 10 + code % 10 == code
  {
    var q := code / 10;
    assert code == q * 10 + code % 10;
    assert q == q / 10 * 10 + q % 10;
    assert q / 10 == code / 100;
  }

  /** `"\s+(\d{3})\s+` at `p`. */
  function StatusMatchAt(s: string, p: nat): (r: Option<Span>)
    ensures r.Some? ==> p < |s| && s[p] == '"' && r.value.hi == r.value.lo + 3 < |s|
    ensures r.Some? ==> r.value.lo == RunEnd(s, p + 1, IsSpace) > p + 1
    ensures r.Some? ==> AllDigits(s[r.value.lo..r.value.hi]) && IsSpace(s[r.value.hi])
  {
    if p < |s| && s[p] == '"' then
      var w := RunEnd(s, p + 1, IsSpace);
      if w > p + 1 && w + 3 < |s| && IsDigit(s[w]) && IsDigit(s[w + 1]) && IsDigit(s[w + 2]) && IsSpace(s[w + 3]) then
        assert s[w..w + 3] == [s[w], s[w + 1], s[w + 2]];
        Some(Span(w, w + 3))
      else None
    else None
  }

  /**
   * The status pattern matches at every quote followed by whitespace, three
   * digits and whitespace, and captures those digits.
   */
  lemma StatusMatchAtComplete(s: string, p: nat, w: nat)
    requires p + 1 < w && w + 3 < |s| && s[p] == '"'
    requires forall k :: p + 1 <= k < w ==> IsSpace(s[k])
    requires IsDigit(s[w]) && IsDigit(s[w + 1]) && IsDigit(s[w + 2]) && IsSpace(s[w + 3])
    ensures StatusMatchAt(s, p) == Some(Span(w, w + 3))
  {
    RunEndIs(s, p + 1, IsSpace, w);
  }

  /** `p` is the leftmost position where the status pattern matches. */
  predicate FirstStatusAt(s: string, p: nat) {
    StatusMatchAt(s, p).Some? && forall q :: 0 <= q < p ==> StatusMatchAt(s, q).None?
  }

  /** The leftmost match of the status pattern, if any. */
  function FirstStatus(s: string): (r: Option<Found<Span>>)
    ensures r.None? <==> forall p :: 0 <= p < |s| ==> StatusMatchAt(s, p).None?
    ensures r.Some? ==> FirstStatusAt(s, r.value.at) && StatusMatchAt(s, r.value.at) == Some(r.value.groups)
    ensures r.Some? ==> r.value.at < |s|
  {
    var m := (p: nat) => StatusMatchAt(s, p);
    assert forall p :: m(p) == StatusMatchAt(s, p);
    FindFrom(|s|, 0, m)
  }

  /**
   * `parseResponseCode`: the value of the three digits of the first match, or
   * 0 when the pattern matches nowhere; always within 0..999.
   */
  function ParseResponseCode(logLine: string): (code: nat)
    ensures code <= 999
    ensures (forall p :: 0 <= p < |logLine| ==> StatusMatchAt(logLine, p).None?) ==> code == 0
    ensures (exists p :: 0 <= p < |logLine| && StatusMatchAt(logLine, p).Some?) ==>
      exists p: nat :: FirstStatusAt(logLine, p) &&
        var sp := StatusMatchAt(logLine, p).value; code == DigitsValue(logLine[sp.lo..sp.hi])
  {
    match FirstStatus(logLine)
    case None => 0
    case Some(f) =>
      assert Pow10(3) == 1000;
      DigitsValue(logLine[f.groups.lo..f.groups.hi])
  }

  /** `\s+(\d+)\s+"` at `p`. */
  function SizeMatchAt(s: string, p: nat): (r: Option<Span>)
    ensures r.Some? ==> p < |s| && IsSpace(s[p]) && r.value.lo == RunEnd(s, p, IsSpace)
    ensures r.Some? ==> r.value.lo < r.value.hi < |s| && AllDigits(s[r.value.lo..r.value.hi])
    ensures r.Some? ==> r.value.hi == RunEnd(s, r.value.lo, IsDigit)
    ensures r.Some? ==> var w := RunEnd(s, r.value.hi, IsSpace); w > r.value.hi && w < |s| && s[w] == '"'
  {
    if p < |s| && IsSpace(s[p]) then
      var d := RunEnd(s, p, IsSpace);
      var e := RunEnd(s, d, IsDigit);
      var w := RunEnd(s, e, IsSpace);
      if d < e < w < |s| && s[w] == '"' then
        assert forall k :: 0 <= k < e - d ==> s[d..e][k] == s[d + k];
        Some(Span(d, e))
      else None
    else None
  }

  /**
   * The size pattern matches at every whitespace run followed by digits,
   * whitespace and a quote, and captures those digits.
   */
  lemma SizeMatchAtComplete(s: string, p: nat, d: nat, e: nat, w: nat)
    requires p < d < e < w < |s| && s[w] == '"'
    requires forall k :: p <= k < d ==> IsSpace(s[k])
    requires forall k :: d <= k < e ==> IsDigit(s[k])
    requires forall k :: e <= k < w ==> IsSpace(s[k])
    ensures SizeMatchAt(s, p) == Some(Span(d, e))
  {
    RunEndIs(s, p, IsSpace, d);
    RunEndIs(s, d, IsDigit, e);
    RunEndIs(s, e, IsSpace, w);
  }

  /** `p` is the leftmost position where the size pattern matches. */
  predicate FirstSizeAt(s: string, p: nat) {
    SizeMatchAt(s, p).Some? && forall q :: 0 <= q < p ==> SizeMatchAt(s, q).None?
  }

  /** The leftmost match of the size pattern, if any. */
  function FirstSize(s: string): (r: Option<Found<Span>>)
    ensures r.None? <==> forall p :: 0 <= p < |s| ==> SizeMatchAt(s, p).None?
    ensures r.Some? ==> FirstSizeAt(s, r.value.at) && SizeMatchAt(s, r.value.at) == Some(r.value.groups)
  {
    var m := (p: nat) => SizeMatchAt(s, p);
    assert forall p :: m(p) == SizeMatchAt(s, p);
    FindFrom(|s|, 0, m)
  }

  /**
   * `parseResponseSize`: the value of the digit run of the first match when it
   * fits an `int`; 0 when it does not (`NumberFormatException`) or when the
   * pattern matches nowhere. Never negative.
   */
  function ParseResponseSize(logLine: string): (size: nat)
    ensures size <= IntMax
    ensures (forall p :: 0 <= p < |logLine| ==> SizeMatchAt(logLine, p).None?) ==> size == 0
    ensures (exists p :: 0 <= p < |logLine| && SizeMatchAt(logLine, p).Some?) ==>
      exists p: nat :: FirstSizeAt(logLine, p) &&
        var sp := SizeMatchAt(logLine, p).value;
        var v := DigitsValue(logLine[sp.lo..sp.hi]);
        size == if v <= IntMax then v else 0
  {
    match FirstSize(logLine)
    case None => 0
    case Some(f) =>
      var v := DigitsValue(logLine[f.groups.lo..f.groups.hi]);
      if v <= IntMax then v else 0
  }

  // ---------------------------------------------------------------------------
  // Referer and agent: "([^"]*)"\s+"([^"]*)"$

  predicate IsNotQuote(c: char) { c != '"' }

  /**
   * The line ends with a quoted field, whitespace, and another quoted field,
   * neither field containing a quote; `a` and `b` are the two fields' spans.
   */
  predicate QuotedTailAt(s: string, a: Span, b: Span) {
    && 0 < a.lo <= a.hi && a.hi + 2 < b.lo <= b.hi && b.hi + 1 == |s|
    && s[a.lo - 1] == '"' && s[a.hi] == '"' && s[b.lo - 1] == '"' && s[b.hi] == '"'
    && (forall i :: a.lo <= i < a.hi ==> s[i] != '"')
    && (forall i :: b.lo <= i < b.hi ==> s[i] != '"')
    && (forall i :: a.hi < i < b.lo - 1 ==> IsSpace(s[i]))
  }

  /** `"([^"]*)"\s+"([^"]*)"$` at `p`: the spans of the two groups. */
  function TailMatchAt(s: string, p: nat): (r: Option<(Span, Span)>)
    ensures r.Some? ==> r.value.0.lo == p + 1 && QuotedTailAt(s, r.value.0, r.value.1)
  {
    if p < |s| && s[p] == '"' then
      var q := RunEnd(s, p + 1, IsNotQuote);
      if q < |s| then
        var w := RunEnd(s, q + 1, IsSpace);
        if q + 1 < w < |s| && s[w] == '"' then
          var e := RunEnd(s, w + 1, IsNotQuote);
          if e + 1 == |s| then Some((Span(p + 1, q), Span(w + 1, e))) else None
        else None
      else None
    else None
  }

  /** A literal `-` field stands for "no value". */
  function DashAsEmpty(field: string): (r: string)
    ensures r == [] <==> field == [] || field == "-"
    ensures r != [] ==> r == field
  {
    if field == "-" then [] else field
  }

  /** The first match of the trailing-fields pattern. */
  function QuotedTail(s: string): (r: Option<Found<(Span, Span)>>)
    ensures r.Some? ==> QuotedTailAt(s, r.value.groups.0, r.value.groups.1)
  {
    FindFrom(|s|, 0, (p: nat) => TailMatchAt(s, p))
  }

  /** A field none of whose chars is a quote holds no quote, `-` read as "" or not. */
  lemma FieldWithoutQuote(s: string, a: Span)
    requires a.lo <= a.hi <= |s| && forall i :: a.lo <= i < a.hi ==> s[i] != '"'
    ensures '"' !in s[a.lo..a.hi] && '"' !in DashAsEmpty(s[a.lo..a.hi])
  {
    assert forall k :: 0 <= k < a.hi - a.lo ==> s[a.lo..a.hi][k] == s[a.lo + k];
  }

  /** `parseReferer`: the first of the two trailing quoted fields, `-` read as "". */
  function ParseReferer(logLine: string): (referer: string)
    ensures '"' !in referer
  {
    match QuotedTail(logLine)
    case None => []
    case Some(f) =>
      FieldWithoutQuote(logLine, f.groups.0);
      DashAsEmpty(logLine[f.groups.0.lo..f.groups.0.hi])
  }

  /** `parseUserAgentString`: the second of the two trailing quoted fields, `-` read as "". */
  function ParseUserAgentString(logLine: string): (agent: string)
    ensures '"' !in agent
  {
    match QuotedTail(logLine)
    case None => []
    case Some(f) =>
      FieldWithoutQuote(logLine, f.groups.1);
      DashAsEmpty(logLine[f.groups.1.lo..f.groups.1.hi])
  }

  /** A line has at most one way of ending in two quoted fields. */
  lemma QuotedTailUnique(s: string, a: Span, b: Span, a': Span, b': Span)
    requires QuotedTailAt(s, a, b) && QuotedTailAt(s, a', b')
    ensures a == a' && b == b'
  {
  }

  /** The pattern matches at the opening quote of a line's two trailing quoted fields. */
  lemma TailMatchesAtOpeningQuote(s: string, a: Span, b: Span)
    requires QuotedTailAt(s, a, b)
    ensures TailMatchAt(s, a.lo - 1) == Some((a, b))
  {
    RunEndIs(s, a.lo, IsNotQuote, a.hi);
    RunEndIs(s, a.hi + 1, IsSpace, b.lo - 1);
    RunEndIs(s, b.lo, IsNotQuote, b.hi);
  }

  /**
   * The referer and the agent string are exactly the two trailing quoted
   * fields (with `-` read as ""), when the line ends in two such fields...
   */
  lemma TrailingFieldsExtracted(logLine: string, a: Span, b: Span)
    requires QuotedTailAt(logLine, a, b)
    ensures ParseReferer(logLine) == DashAsEmpty(logLine[a.lo..a.hi])
    ensures ParseUserAgentString(logLine) == DashAsEmpty(logLine[b.lo..b.hi])
  {
    TailMatchesAtOpeningQuote(logLine, a, b);
    var m := (p: nat) => TailMatchAt(logLine, p);
    assert m(a.lo - 1).Some?;
    var r := QuotedTail(logLine);
    assert r.Some?;
    QuotedTailUnique(logLine, a, b, r.value.groups.0, r.value.groups.1);
  }

  /** ...and both are "" when it does not. */
  lemma TrailingFieldsMissing(logLine: string)
    requires forall a, b :: !QuotedTailAt(logLine, a, b)
    ensures ParseReferer(logLine) == [] && ParseUserAgentString(logLine) == []
  {
  }

  /** A line assembled from a prefix and two quoted fields gives those fields back. */
  lemma TrailingFieldsRoundTrip(prefix: string, referer: string, gap: string, agent: string)
    requires '"' !in referer && '"' !in agent
    requires gap != [] && forall i :: 0 <= i < |gap| ==> IsSpace(gap[i])
    ensures var line := prefix + ['"'] + referer + ['"'] + gap + ['"'] + agent + ['"'];
      ParseReferer(line) == DashAsEmpty(referer) && ParseUserAgentString(line) == DashAsEmpty(agent)
  {
    var line := prefix + ['"'] + referer + ['"'] + gap + ['"'] + agent + ['"'];
    var a := Span(|prefix| + 1, |prefix| + 1 + |referer|);
    var b := Span(a.hi + |gap| + 2, a.hi + |gap| + 2 + |agent|);
    assert line[a.lo..a.hi] == referer;
    assert line[b.lo..b.hi] == agent;
    forall i | a.lo <= i < a.hi ensures line[i] != '"' { assert line[i] == referer[i - a.lo]; }
    forall i | b.lo <= i < b.hi ensures line[i] != '"' { assert line[i] == agent[i - b.lo]; }
    forall i | a.hi < i < b.lo - 1 ensures IsSpace(line[i]) { assert line[i] == gap[i - a.hi - 1]; }
    assert QuotedTailAt(line, a, b);
    TrailingFieldsExtracted(line, a, b);
  }

  // ---------------------------------------------------------------------------
  // The record

  /**
   * The `LogEntry(String)` constructor. Every field comes from its own parser
   * applied to the whole line; the agent classification is built from the
   * extracted agent string, never from the raw line. The time is a parameter.
   */
  function ParseLogEntry(logLine: string, time: int): (e: LogEntry)
    ensures e.responseCode <= 999 && e.responseSize <= IntMax
    ensures '"' !in e.referer
    ensures e.userAgent == ParseUserAgent(ParseUserAgentString(logLine))
    ensures e.time == time
  {
    LogEntry(
      ParseIpAddress(logLine),
      time,
      ParseMethod(logLine),
      ParsePath(logLine),
      ParseResponseCode(logLine),
      ParseResponseSize(logLine),
      ParseReferer(logLine),
      ParseUserAgent(ParseUserAgentString(logLine)))
  }
}
