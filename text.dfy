/**
 * Character classes and the few java.lang.String / java.util.regex behaviours
 * the parsers rely on, stated over `seq<char>`:
 *  - the regex character classes `\d`, `\s`, `[A-Z]` (ASCII, as Java's
 *    default flags give them) and the chars `String.trim()` strips;
 *  - `toLowerCase` (ASCII letters only), `contains`, `indexOf`, `trim`;
 *  - `split` on a one-character literal separator;
 *  - a greedy run `X*` (RunEnd) and `Matcher.find()`, the leftmost start at
 *    which a pattern matches (FindFrom).
 */
module Text {

  datatype Option<T> = None | Some(value: T)

  /** A half-open range [lo, hi) of positions in a string: a regex group. */
  datatype Span = Span(lo: nat, hi: nat)

  /** Regex `\d` without UNICODE_CHARACTER_CLASS: ASCII digits only. */
  predicate IsDigit(c: char) { '0' <= c <= '9' }

  /** Regex `[A-Z]`. */
  predicate IsUpper(c: char) { 'A' <= c <= 'Z' }

  /** Regex `\s`: space, tab, newline, vertical tab, form feed, carriage return. */
  predicate IsSpace(c: char) {
    c == ' ' || c == '\t' || c == '\n' || c == '\r' || c as int == 0x0B || c as int == 0x0C
  }

  /** The characters `String.trim()` removes: every char at or below U+0020. */
  predicate IsBlank(c: char) { c <= ' ' }

  predicate AllBlank(s: string) { forall i :: 0 <= i < |s| ==> IsBlank(s[i]) }

  predicate AllDigits(s: string) { forall i :: 0 <= i < |s| ==> IsDigit(s[i]) }

  function LowerChar(c: char): char {
    if IsUpper(c) then (c as int + 32) as char else c
  }

  /** `String.toLowerCase()` on ASCII letters; every other char is kept. */
  function Lower(s: string): (r: string)
    ensures |r| == |s|
    ensures forall i :: 0 <= i < |s| ==> r[i] == LowerChar(s[i])
  {
    seq(|s|, i requires 0 <= i < |s| => LowerChar(s[i]))
  }

  /**
   * Java's `String.length()`: the number of UTF-16 code units, one for a
   * character of the Basic Multilingual Plane and two (a surrogate pair) for
   * any character above U+FFFF.
   */
  function Utf16Length(s: string): (n: nat)
    ensures |s| <= n <= 2 * |s|
  {
    if s == [] then 0
    else Utf16Length(s[..|s| - 1]) + if s[|s| - 1] as int > 0xFFFF then 2 else 1
  }

  /**
   * The code-unit count equals the character count exactly when every
   * character lies in the Basic Multilingual Plane, and is twice it exactly
   * when every character lies above it.
   */
  lemma {:induction false} Utf16LengthBounds(s: string)
    ensures Utf16Length(s) == |s| <==> forall i :: 0 <= i < |s| ==> s[i] as int <= 0xFFFF
    ensures Utf16Length(s) == 2 * |s| <==> forall i :: 0 <= i < |s| ==> s[i] as int > 0xFFFF
  {
    if s != [] {
      var t := s[..|s| - 1];
      Utf16LengthBounds(t);
      assert forall i :: 0 <= i < |t| ==> t[i] == s[i];
    }
  }

  /** Lower-casing leaves no uppercase ASCII letter, so doing it twice changes nothing. */
  lemma LowerIdempotent(s: string)
    ensures forall i :: 0 <= i < |s| ==> !IsUpper(Lower(s)[i])
    ensures Lower(Lower(s)) == Lower(s)
  {
  }

  /** `t` occurs in `s` starting at position `i`. */
  predicate OccursAt(s: string, t: string, i: nat) {
    i + |t| <= |s| && s[i..i + |t|] == t
  }

  /** `s.contains(t)`. */
  predicate Contains(s: string, t: string) {
    exists i: nat :: i <= |s| && OccursAt(s, t, i)
  }

  lemma ContainsTransitive(a: string, b: string, c: string)
    requires Contains(b, a) && Contains(c, b)
    ensures Contains(c, a)
  {
    var j: nat :| j <= |b| && OccursAt(b, a, j);
    var i: nat :| i <= |c| && OccursAt(c, b, i);
    assert c[i + j..i + j + |a|] == a by {
      forall k | 0 <= k < |a| ensures c[i + j + k] == a[k] {
        assert a[k] == b[j..j + |a|][k] == b[j + k];
        assert b[j + k] == c[i..i + |b|][j + k];
      }
    }
    assert OccursAt(c, a, i + j);
  }

  lemma ContainsSlice(s: string, lo: nat, hi: nat)
    requires lo <= hi <= |s|
    ensures Contains(s, s[lo..hi])
  {
    assert OccursAt(s, s[lo..hi], lo);
  }

  lemma ContainsLower(s: string, t: string)
    requires Contains(s, t)
    ensures Contains(Lower(s), Lower(t))
  {
    var i: nat :| i <= |s| && OccursAt(s, t, i);
    assert Lower(s)[i..i + |t|] == Lower(t);
    assert OccursAt(Lower(s), Lower(t), i);
  }

  /** `s.indexOf(c)` when `c` occurs in `s`. */
  function IndexOf(s: string, c: char): (k: nat)
    requires c in s
    ensures k < |s| && s[k] == c && c !in s[..k]
  {
    if s[0] == c then 0 else 1 + IndexOf(s[1..], c)
  }

  /**
   * The greedy run `X*` of chars satisfying `p` from position `i`: the run ends
   * at the first position that is past the string or fails `p`.
   */
  function RunEnd(s: string, i: nat, p: char -> bool): (e: nat)
    requires i <= |s|
    ensures i <= e <= |s|
    ensures forall k :: i <= k < e ==> p(s[k])
    ensures e == |s| || !p(s[e])
    decreases |s| - i
  {
    if i < |s| && p(s[i]) then RunEnd(s, i + 1, p) else i
  }

  /** The maximal run is determined by its two defining properties. */
  lemma RunEndIs(s: string, i: nat, p: char -> bool, e: nat)
    requires i <= e <= |s|
    requires forall k :: i <= k < e ==> p(s[k])
    requires e == |s| || !p(s[e])
    ensures RunEnd(s, i, p) == e
  {
  }

  /** A match of a pattern: where it starts and what its groups are. */
  datatype Found<T> = Found(at: nat, groups: T)

  /**
   * `Matcher.find()` from position `i`: the leftmost start position in [i, n)
   * at which the pattern `m` matches, with the groups it matched there.
   */
  function FindFrom<T>(n: nat, i: nat, m: nat -> Option<T>): (r: Option<Found<T>>)
    requires i <= n
    ensures r.Some? ==> i <= r.value.at < n && m(r.value.at) == Some(r.value.groups)
    ensures r.Some? ==> forall q :: i <= q < r.value.at ==> m(q).None?
    ensures r.None? <==> forall p :: i <= p < n ==> m(p).None?
    decreases n - i
  {
    if i == n then None
    else
      match m(i)
      case Some(g) => Some(Found(i, g))
      case None => FindFrom(n, i + 1, m)
  }

  // ---------------------------------------------------------------------------
  // String.trim()

  function TrimEnd(s: string): (r: string)
    ensures |r| <= |s| && r == s[..|r|]
    ensures AllBlank(s[|r|..])
    ensures r == [] || !IsBlank(r[|r| - 1])
  {
    if s != [] && IsBlank(s[|s| - 1]) then TrimEnd(s[..|s| - 1]) else s
  }

  function TrimStart(s: string): (r: string)
    ensures |r| <= |s| && r == s[|s| - |r|..]
    ensures AllBlank(s[..|s| - |r|])
    ensures r == [] || !IsBlank(r[0])
  {
    if s != [] && IsBlank(s[0]) then TrimStart(s[1..]) else s
  }

  /** `String.trim()`: drops every char at or below U+0020 from both ends. */
  function Trim(s: string): (r: string)
    ensures r == [] || (!IsBlank(r[0]) && !IsBlank(r[|r| - 1]))
  {
    TrimStart(TrimEnd(s))
  }

  /**
   * `trim` removes exactly the blank prefix and the blank suffix: the result
   * is a slice of the string with only blanks before and after it, and it
   * neither starts nor ends with a blank.
   */
  lemma TrimSpec(s: string)
    ensures var r := Trim(s);
      exists i :: 0 <= i && i + |r| <= |s| && s[i..i + |r|] == r && AllBlank(s[..i]) && AllBlank(s[i + |r|..])
    ensures var r := Trim(s); r == [] || (!IsBlank(r[0]) && !IsBlank(r[|r| - 1]))
  {
    var e := TrimEnd(s);
    TrimmedSlice(s, e, Trim(s));
  }

  /** A string trimmed at the end, then at the start, is a slice between blank ends. */
  lemma TrimmedSlice(s: string, e: string, r: string)
    requires |e| <= |s| && e == s[..|e|] && AllBlank(s[|e|..])
    requires |r| <= |e| && r == e[|e| - |r|..] && AllBlank(e[..|e| - |r|])
    ensures var i := |e| - |r|; s[i..i + |r|] == r && AllBlank(s[..i]) && AllBlank(s[i + |r|..])
  {
    var i := |e| - |r|;
    assert s[..i] == e[..i];
  }

  lemma TrimContained(s: string)
    ensures Contains(s, Trim(s))
  {
    var e, r := TrimEnd(s), Trim(s);
    assert r == s[|e| - |r|..|e|];
    ContainsSlice(s, |e| - |r|, |e|);
  }

  lemma TrimEndBlankSuffix(x: string, y: string)
    requires AllBlank(y)
    ensures TrimEnd(x + y) == TrimEnd(x)
    decreases |y|
  {
    if y != [] {
      assert (x + y)[..|x + y| - 1] == x + y[..|y| - 1];
      TrimEndBlankSuffix(x, y[..|y| - 1]);
    } else {
      assert x + y == x;
    }
  }

  /** Blank characters appended to a string do not survive `trim`. */
  lemma TrimBlankSuffix(x: string, y: string)
    requires AllBlank(y)
    ensures Trim(x + y) == Trim(x)
  {
    TrimEndBlankSuffix(x, y);
  }

  // ---------------------------------------------------------------------------
  // String.split with a one-character literal separator

  /** Every piece of `s` between occurrences of `sep`, trailing empty pieces included. */
  function Pieces(s: string, sep: char): (ps: seq<string>)
    ensures |ps| >= 1
    decreases |s|
  {
    if sep !in s then [s]
    else
      var k := IndexOf(s, sep);
      [s[..k]] + Pieces(s[k + 1..], sep)
  }

  /** A string without the separator is a single piece. */
  lemma PiecesWithoutSeparator(s: string, sep: char)
    requires forall i :: 0 <= i < |s| ==> s[i] != sep
    ensures Pieces(s, sep) == [s]
  {
    assert sep !in s;
  }

  /** No piece holds the separator. */
  lemma {:induction false} PiecesNoSeparator(s: string, sep: char)
    ensures forall j :: 0 <= j < |Pieces(s, sep)| ==> sep !in Pieces(s, sep)[j]
    decreases |s|
  {
    if sep in s {
      var k := IndexOf(s, sep);
      PiecesNoSeparator(s[k + 1..], sep);
      assert forall j :: 1 <= j < |Pieces(s, sep)| ==> Pieces(s, sep)[j] == Pieces(s[k + 1..], sep)[j - 1];
    }
  }

  /** The pieces put back together with `sep` between consecutive pieces. */
  function Join(ps: seq<string>, sep: char): string
    requires |ps| >= 1
  {
    if |ps| == 1 then ps[0] else ps[0] + [sep] + Join(ps[1..], sep)
  }

  lemma {:induction false} JoinPieces(s: string, sep: char)
    ensures Join(Pieces(s, sep), sep) == s
    decreases |s|
  {
    if sep in s {
      var k := IndexOf(s, sep);
      JoinPieces(s[k + 1..], sep);
      JoinCons(s[..k], Pieces(s[k + 1..], sep), sep);
      SplitAt(s, k);
    }
  }

  /** Joining a piece in front of at least one more. */
  lemma JoinCons(p: string, rest: seq<string>, sep: char)
    requires |rest| >= 1
    ensures Join([p] + rest, sep) == p + [sep] + Join(rest, sep)
  {
    assert ([p] + rest)[1..] == rest;
  }

  /** A string is its part before `k`, the char at `k` and its part after. */
  lemma SplitAt(s: string, k: nat)
    requires k < |s|
    ensures s == s[..k] + [s[k]] + s[k + 1..]
  {
  }

  lemma {:induction false} PiecesJoin(ps: seq<string>, sep: char)
    requires |ps| >= 1
    requires forall j :: 0 <= j < |ps| ==> sep !in ps[j]
    ensures Pieces(Join(ps, sep), sep) == ps
  {
    assert sep !in ps[0];
    if |ps| == 1 {
      assert Join(ps, sep) == ps[0];
      assert Pieces(ps[0], sep) == [ps[0]];
    } else {
      var rest := ps[1..];
      assert forall j :: 0 <= j < |rest| ==> sep !in rest[j] by {
        forall j | 0 <= j < |rest| ensures sep !in rest[j] { assert rest[j] == ps[j + 1]; }
      }
      PiecesJoin(rest, sep);
      assert Join(ps, sep) == ps[0] + [sep] + Join(rest, sep);
      PiecesAfterFirst(ps[0], Join(rest, sep), sep);
      assert ps == [ps[0]] + rest;
    }
  }

  /** The first piece of `x + [sep] + y` is `x` when `x` has no separator. */
  lemma PiecesAfterFirst(x: string, y: string, sep: char)
    requires sep !in x
    ensures Pieces(x + [sep] + y, sep) == [x] + Pieces(y, sep)
  {
    var s := x + [sep] + y;
    assert s[|x|] == sep;
    assert s[..|x|] == x;
    var k := IndexOf(s, sep);
    assert s[..k] == x && s[k + 1..] == y;
  }

  lemma {:induction false} JoinAppend(xs: seq<string>, ys: seq<string>, sep: char)
    requires |xs| >= 1 && |ys| >= 1
    ensures Join(xs + ys, sep) == Join(xs, sep) + [sep] + Join(ys, sep)
  {
    if |xs| > 1 {
      assert (xs + ys)[1..] == xs[1..] + ys;
      JoinAppend(xs[1..], ys, sep);
    } else {
      assert (xs + ys)[1..] == ys;
    }
  }

  lemma {:induction false} PiecesContained(s: string, sep: char, j: nat)
    requires j < |Pieces(s, sep)|
    ensures Contains(s, Pieces(s, sep)[j])
    decreases |s|
  {
    if sep !in s {
      ContainsSlice(s, 0, |s|);
      assert s[0..|s|] == s;
    } else {
      var k := IndexOf(s, sep);
      if j == 0 {
        ContainsSlice(s, 0, k);
      } else {
        PiecesContained(s[k + 1..], sep, j - 1);
        assert Pieces(s, sep)[j] == Pieces(s[k + 1..], sep)[j - 1];
        ContainsSlice(s, k + 1, |s|);
        assert s[k + 1..|s|] == s[k + 1..];
        ContainsTransitive(Pieces(s, sep)[j], s[k + 1..], s);
      }
    }
  }

  /** Drops the empty strings at the end of a list of pieces. */
  function DropTrailingEmpty(ps: seq<string>): (r: seq<string>)
    ensures |r| <= |ps| && r == ps[..|r|]
    ensures forall j :: |r| <= j < |ps| ==> ps[j] == []
    ensures r == [] || r[|r| - 1] != []
  {
    if ps != [] && ps[|ps| - 1] == [] then DropTrailingEmpty(ps[..|ps| - 1]) else ps
  }

  /**
   * `s.split(sep)` for a one-character literal separator: the whole string when
   * the separator does not occur, otherwise the pieces without trailing empty ones.
   */
  function Split(s: string, sep: char): seq<string> {
    if sep !in s then [s] else DropTrailingEmpty(Pieces(s, sep))
  }

  /**
   * Without the separator the string is its only part; with it, the parts are
   * the pieces between separators (`JoinPieces`) up to the last non-empty one:
   * only empty pieces at the end are dropped.
   */
  lemma SplitShape(s: string, sep: char)
    ensures sep !in s ==> Split(s, sep) == [s]
    ensures sep in s ==> Split(s, sep) == Pieces(s, sep)[..|Split(s, sep)|]
    ensures sep in s ==> Split(s, sep) == [] || Split(s, sep)[|Split(s, sep)| - 1] != []
    ensures sep in s ==> forall j :: |Split(s, sep)| <= j < |Pieces(s, sep)| ==> Pieces(s, sep)[j] == []
  {
  }

  /** No part `split` returns holds the separator. */
  lemma SplitNoSeparator(s: string, sep: char)
    ensures forall j :: 0 <= j < |Split(s, sep)| ==> sep !in Split(s, sep)[j]
  {
    if sep in s {
      PiecesNoSeparator(s, sep);
      var ps, parts := Pieces(s, sep), Split(s, sep);
      assert forall j :: 0 <= j < |parts| ==> parts[j] == ps[j];
    }
  }

  /** Every part `split` returns occurs in the string. */
  lemma SplitContained(s: string, sep: char, j: nat)
    requires j < |Split(s, sep)|
    ensures Contains(s, Split(s, sep)[j])
  {
    if sep !in s {
      ContainsSlice(s, 0, |s|);
      assert s[0..|s|] == s;
    } else {
      assert Split(s, sep)[j] == Pieces(s, sep)[j];
      PiecesContained(s, sep, j);
    }
  }
}
