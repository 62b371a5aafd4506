/** The JavaScript string operations the extension relies on (`toLowerCase`,
    `includes`, `startsWith`, `endsWith`, `trim`, `replace(/\s+/g, ' ')`,
    `split`, `join`, number-to-string), stated over `seq<char>`. */
module Strings {
  import opened Wrappers

  // ---------------------------------------------------------------------------
  // Case mapping (ASCII letters only)

  function LowerChar(c: char): char {
    if 'A' <= c <= 'Z' then (c as int + 32) as char else c
  }

  predicate IsUpper(c: char) { 'A' <= c <= 'Z' }

  /** `s.toLowerCase()` */
  function ToLower(s: string): (r: string)
    ensures |r| == |s|
  {
    seq(|s|, i requires 0 <= i < |s| => LowerChar(s[i]))
  }

  /** Lower-casing maps every character on its own and leaves no upper-case letter. */
  lemma ToLowerSpec(s: string)
    ensures forall i :: 0 <= i < |s| ==> ToLower(s)[i] == LowerChar(s[i])
    ensures forall i :: 0 <= i < |s| ==> !IsUpper(ToLower(s)[i])
  {
  }

  lemma ToLowerIdempotent(s: string)
    ensures ToLower(ToLower(s)) == ToLower(s)
  {
  }

  lemma ToLowerAppend(a: string, b: string)
    ensures ToLower(a + b) == ToLower(a) + ToLower(b)
  {
  }

  // ---------------------------------------------------------------------------
  // Prefix, suffix and substring tests

  /** `s.startsWith(p)` */
  predicate StartsWith(s: string, p: string) {
    |p| <= |s| && s[..|p|] == p
  }

  /** `s.endsWith(p)` */
  predicate EndsWith(s: string, p: string) {
    |p| <= |s| && s[|s| - |p|..] == p
  }

  /** `p` occurs in `s` at position `i` */
  predicate OccursAt(s: string, p: string, i: int) {
    0 <= i && i + |p| <= |s| && s[i..i + |p|] == p
  }

  /** `s.includes(p)`, scanning left to right as the engine does */
  predicate Contains(s: string, p: string)
    decreases |s|
  {
    StartsWith(s, p) || (|s| > 0 && Contains(s[1..], p))
  }

  /** `includes` holds exactly when the needle occurs at some position. */
  lemma {:induction false} ContainsIff(s: string, p: string)
    ensures Contains(s, p) <==> exists i :: OccursAt(s, p, i)
    decreases |s|
  {
    if StartsWith(s, p) {
      assert OccursAt(s, p, 0);
    } else if |s| > 0 {
      ContainsIff(s[1..], p);
      if Contains(s[1..], p) {
        var i :| OccursAt(s[1..], p, i);
        assert s[1..][i..i + |p|] == s[i + 1..i + 1 + |p|];
        assert OccursAt(s, p, i + 1);
      }
      if exists i :: OccursAt(s, p, i) {
        var i :| OccursAt(s, p, i);
        assert i != 0;
        assert s[1..][i - 1..i - 1 + |p|] == s[i..i + |p|];
        assert OccursAt(s[1..], p, i - 1);
      }
    }
  }

  lemma ContainsAt(s: string, p: string, i: int)
    requires OccursAt(s, p, i)
    ensures Contains(s, p)
  {
    ContainsIff(s, p);
  }

  lemma ContainsInConcat(a: string, b: string, p: string)
    requires Contains(b, p)
    ensures Contains(a + b, p)
  {
    ContainsIff(b, p);
    var i :| OccursAt(b, p, i);
    assert (a + b)[|a| + i..|a| + i + |p|] == b[i..i + |p|];
    ContainsAt(a + b, p, |a| + i);
  }

  lemma ContainsInPrefix(a: string, b: string, p: string)
    requires Contains(a, p)
    ensures Contains(a + b, p)
  {
    ContainsIff(a, p);
    var i :| OccursAt(a, p, i);
    assert (a + b)[i..i + |p|] == a[i..i + |p|];
    ContainsAt(a + b, p, i);
  }

  /** Any string contains the empty string, and itself. */
  lemma ContainsSelf(s: string)
    ensures Contains(s, s) && Contains(s, "")
  {
  }

  /** A needle with a character the haystack never uses cannot occur in it. */
  lemma NotContainsForeignChar(s: string, p: string, k: int)
    requires 0 <= k < |p|
    requires forall j :: 0 <= j < |s| ==> s[j] != p[k]
    ensures !Contains(s, p)
  {
    ContainsIff(s, p);
    forall i ensures !OccursAt(s, p, i) {
      if 0 <= i && i + |p| <= |s| {
        assert s[i..i + |p|][k] == s[i + k];
      }
    }
  }

  /** `keywords.some(k => s.includes(k))` */
  predicate ContainsAny(s: string, keywords: seq<string>) {
    |keywords| > 0 && (Contains(s, keywords[0]) || ContainsAny(s, keywords[1..]))
  }

  /** `some` over `includes` holds exactly when one of the keywords occurs. */
  lemma {:induction false} ContainsAnyIff(s: string, keywords: seq<string>)
    ensures ContainsAny(s, keywords) <==> exists i :: 0 <= i < |keywords| && Contains(s, keywords[i])
  {
    if |keywords| > 0 {
      ContainsAnyIff(s, keywords[1..]);
      if exists i :: 1 <= i < |keywords| && Contains(s, keywords[i]) {
        var i :| 1 <= i < |keywords| && Contains(s, keywords[i]);
        assert keywords[1..][i - 1] == keywords[i];
      }
    }
  }

  /** No keyword occurs, each keyword being ruled out by a character of its own
      that the haystack never uses. */
  lemma NoneContained(s: string, keywords: seq<string>, foreign: seq<nat>)
    requires |foreign| == |keywords|
    requires forall i :: 0 <= i < |keywords| ==> foreign[i] < |keywords[i]|
    requires forall i, j :: 0 <= i < |keywords| && 0 <= j < |s| ==> s[j] != keywords[i][foreign[i]]
    ensures !ContainsAny(s, keywords)
  {
    forall i | 0 <= i < |keywords| ensures !Contains(s, keywords[i]) {
      NotContainsForeignChar(s, keywords[i], foreign[i]);
    }
    ContainsAnyIff(s, keywords);
  }

  // ---------------------------------------------------------------------------
  // Whitespace (the characters matched by `\s` and removed by `trim`)

  predicate IsWs(c: char) {
    || c == ' ' || c == '\t' || c == '\n' || c == '\r'
    || c == '\U{000B}' || c == '\U{000C}' || c == '\U{00A0}' || c == '\U{1680}'
    || ('\U{2000}' <= c <= '\U{200A}')
    || c == '\U{2028}' || c == '\U{2029}' || c == '\U{202F}' || c == '\U{205F}'
    || c == '\U{3000}' || c == '\U{FEFF}'
  }

  predicate NoLeadingWs(s: string) { s == [] || !IsWs(s[0]) }
  predicate NoTrailingWs(s: string) { s == [] || !IsWs(s[|s| - 1]) }

  /** Every whitespace character is a plain space and no two are adjacent. */
  predicate SingleSpaced(s: string) {
    && (forall i :: 0 <= i < |s| && IsWs(s[i]) ==> s[i] == ' ')
    && (forall i, j {:trigger s[i], s[j]} :: 0 <= i < |s| - 1 && j == i + 1 ==> !(IsWs(s[i]) && IsWs(s[j])))
  }

  predicate AllWs(s: string) { forall i :: 0 <= i < |s| ==> IsWs(s[i]) }

  /** `s.trimStart()`: the suffix left after the leading whitespace */
  function TrimStart(s: string): (r: string)
    ensures |r| <= |s|
    decreases |s|
  {
    if |s| > 0 && IsWs(s[0]) then TrimStart(s[1..]) else s
  }

  /** What `trimStart` removes is whitespace, and what it keeps is a suffix
      that does not start with whitespace. */
  lemma {:induction false} TrimStartSpec(s: string)
    ensures var r := TrimStart(s);
      && r == s[|s| - |r|..]
      && AllWs(s[..|s| - |r|])
      && NoLeadingWs(r)
      && (|s| > 0 && IsWs(s[0]) ==> |r| < |s|)
    decreases |s|
  {
    if |s| > 0 && IsWs(s[0]) {
      var t := s[1..];
      TrimStartSpec(t);
      var r := TrimStart(t);
      assert TrimStart(s) == r;
      assert t[|t| - |r|..] == s[|s| - |r|..];
      var w := s[..|s| - |r|];
      forall i | 0 <= i < |w| ensures IsWs(w[i]) {
        if i > 0 {
          assert w[i] == t[..|t| - |r|][i - 1];
        }
      }
    }
  }

  /** `s.trimEnd()`: the prefix left before the trailing whitespace */
  function TrimEnd(s: string): (r: string)
    ensures |r| <= |s|
    decreases |s|
  {
    if |s| > 0 && IsWs(s[|s| - 1]) then TrimEnd(s[..|s| - 1]) else s
  }

  /** What `trimEnd` removes is whitespace, and what it keeps is a prefix that
      does not end with whitespace. */
  lemma {:induction false} TrimEndSpec(s: string)
    ensures var r := TrimEnd(s);
      && r == s[..|r|]
      && AllWs(s[|r|..])
      && NoTrailingWs(r)
    decreases |s|
  {
    if |s| > 0 && IsWs(s[|s| - 1]) {
      TrimEndSpec(s[..|s| - 1]);
      var r := TrimEnd(s[..|s| - 1]);
      assert s[..|s| - 1][..|r|] == s[..|r|];
    }
  }

  /** `s.trim()` */
  function Trim(s: string): (r: string)
    ensures NoLeadingWs(r) && NoTrailingWs(r)
    ensures |r| <= |s|
  {
    var t := TrimStart(s);
    TrimStartSpec(s);
    var r := TrimEnd(t);
    TrimEndSpec(t);
    assert r == [] || r[0] == t[0];
    r
  }

  /** Trimming a string that has nothing to trim leaves it as it is. */
  lemma TrimNoop(s: string)
    requires NoLeadingWs(s) && NoTrailingWs(s)
    ensures Trim(s) == s
  {
  }

  lemma SingleSpacedSlice(s: string, i: int, j: int)
    requires SingleSpaced(s) && 0 <= i <= j <= |s|
    ensures SingleSpaced(s[i..j])
  {
    var t := s[i..j];
    forall k | 0 <= k < |t| - 1 ensures !(IsWs(t[k]) && IsWs(t[k + 1])) {
      assert t[k] == s[i + k] && t[k + 1] == s[i + k + 1];
    }
  }

  lemma TrimKeepsSingleSpaced(s: string)
    requires SingleSpaced(s)
    ensures SingleSpaced(Trim(s))
  {
    TrimStartSpec(s);
    var t := TrimStart(s);
    TrimEndSpec(t);
    SingleSpacedSlice(s, |s| - |t|, |s|);
    var r := TrimEnd(t);
    SingleSpacedSlice(t, 0, |r|);
  }

  /** `s.replace(/\s+/g, ' ')`: every whitespace run becomes one space */
  function Collapse(s: string): (r: string)
    ensures |r| <= |s|
    decreases |s|
  {
    if s == [] then []
    else if IsWs(s[0]) then [' '] + Collapse(TrimStart(s))
    else [s[0]] + Collapse(s[1..])
  }

  /** One character in front of a single-spaced string keeps it single-spaced
      when it is a plain space followed by no whitespace, or no whitespace. */
  lemma SingleSpacedCons(c: char, s: string)
    requires SingleSpaced(s)
    requires IsWs(c) ==> c == ' ' && (s == [] || !IsWs(s[0]))
    ensures SingleSpaced([c] + s)
  {
    var r := [c] + s;
    forall i | 0 <= i < |r| && IsWs(r[i]) ensures r[i] == ' ' {
      if i > 0 {
        assert r[i] == s[i - 1];
      }
    }
    forall i, j | 0 <= i < |r| - 1 && j == i + 1 ensures !(IsWs(r[i]) && IsWs(r[j])) {
      if i > 0 {
        assert r[i] == s[i - 1] && r[j] == s[j - 1];
      }
    }
  }

  /** The collapsed text is empty only for empty input, starts with the input's
      first character (a space when that is whitespace), and is single-spaced. */
  lemma {:induction false} CollapseShape(s: string)
    ensures |s| > 0 ==> |Collapse(s)| > 0
    ensures |s| > 0 && !IsWs(s[0]) ==> Collapse(s)[0] == s[0]
    ensures |s| > 0 && IsWs(s[0]) ==> Collapse(s)[0] == ' '
    ensures SingleSpaced(Collapse(s))
    decreases |s|
  {
    if s != [] {
      if IsWs(s[0]) {
        var t := TrimStart(s);
        TrimStartSpec(s);
        CollapseShape(t);
        SingleSpacedCons(' ', Collapse(t));
      } else {
        CollapseShape(s[1..]);
        SingleSpacedCons(s[0], Collapse(s[1..]));
      }
    }
  }

  /** Collapsing whitespace introduces no upper-case letter. */
  lemma {:induction false} CollapseKeepsLower(s: string)
    requires forall i :: 0 <= i < |s| ==> !IsUpper(s[i])
    ensures forall i :: 0 <= i < |Collapse(s)| ==> !IsUpper(Collapse(s)[i])
    decreases |s|
  {
    if s != [] {
      if IsWs(s[0]) {
        var t := TrimStart(s);
        TrimStartSpec(s);
        assert forall i :: 0 <= i < |t| ==> t[i] == s[|s| - |t| + i];
        CollapseKeepsLower(t);
      } else {
        CollapseKeepsLower(s[1..]);
      }
    }
  }

  lemma CollapseNoLeadingWs(s: string)
    requires NoLeadingWs(s)
    ensures NoLeadingWs(Collapse(s))
  {
    CollapseShape(s);
  }

  lemma ToLowerKeepsWs(s: string)
    ensures forall i :: 0 <= i < |s| ==> (IsWs(ToLower(s)[i]) <==> IsWs(s[i]))
  {
  }

  // ---------------------------------------------------------------------------
  // Splitting and joining

  /** `s.split(/\s+/)`: the pieces between maximal whitespace runs; a leading
      (trailing) run yields an empty first (last) piece, and "" yields [""]. */
  function SplitWs(s: string): (r: seq<string>)
    ensures |r| >= 1
    decreases |s|
  {
    if s == [] then [""]
    else if IsWs(s[0]) then [""] + SplitWs(TrimStart(s))
    else
      var rest := SplitWs(s[1..]);
      [[s[0]] + rest[0]] + rest[1..]
  }

  /** `parts.join(sep)` */
  function Join(parts: seq<string>, sep: string): string {
    if parts == [] then ""
    else if |parts| == 1 then parts[0]
    else parts[0] + sep + Join(parts[1..], sep)
  }

  lemma JoinConsFirst(c: string, parts: seq<string>, sep: string)
    requires |parts| >= 1
    ensures Join([c + parts[0]] + parts[1..], sep) == c + Join(parts, sep)
  {
    var ps := [c + parts[0]] + parts[1..];
    if |parts| > 1 {
      assert ps[1..] == parts[1..];
    }
  }

  /** Splitting on whitespace and joining with single spaces is whitespace
      collapsing: nothing but whitespace is lost. */
  lemma {:induction false} JoinSplitWs(s: string)
    ensures Join(SplitWs(s), " ") == Collapse(s)
    decreases |s|
  {
    if s == [] {
    } else if IsWs(s[0]) {
      var t := TrimStart(s);
      JoinSplitWs(t);
      var x := SplitWs(t);
      assert SplitWs(s) == [""] + x;
      assert ([""] + x)[1..] == x;
    } else {
      JoinSplitWs(s[1..]);
      var rest := SplitWs(s[1..]);
      JoinConsFirst([s[0]], rest, " ");
    }
  }

  predicate NoWs(s: string) { forall i :: 0 <= i < |s| ==> !IsWs(s[i]) }

  /** Every piece is non-empty and free of whitespace */
  predicate WordPieces(ps: seq<string>) {
    forall i :: 0 <= i < |ps| ==> ps[i] != "" && NoWs(ps[i])
  }

  lemma WordPiecesCons(w: string, ps: seq<string>)
    requires w != "" && NoWs(w) && WordPieces(ps)
    ensures WordPieces([w] + ps)
  {
    var r := [w] + ps;
    forall i | 0 <= i < |r| ensures r[i] != "" && NoWs(r[i]) {
      if i > 0 {
        assert r[i] == ps[i - 1];
      }
    }
  }

  lemma WordPiecesExtendFirst(c: char, ps: seq<string>)
    requires !IsWs(c) && |ps| >= 1 && WordPieces(ps)
    ensures WordPieces([[c] + ps[0]] + ps[1..])
  {
    var first := [c] + ps[0];
    assert NoWs(first) by {
      assert forall k :: 1 <= k < |first| ==> first[k] == ps[0][k - 1];
    }
    assert WordPieces(ps[1..]) by {
      assert forall i :: 0 <= i < |ps[1..]| ==> ps[1..][i] == ps[i + 1];
    }
    WordPiecesCons(first, ps[1..]);
  }

  /** Whitespace after the first character of a trimmed string leaves a
      trimmed, non-empty remainder once skipped. */
  lemma TrimStartOfTail(s: string)
    requires |s| >= 2 && NoTrailingWs(s) && IsWs(s[1])
    ensures TrimStart(s[1..]) != "" && NoTrailingWs(TrimStart(s[1..]))
  {
    var t := s[1..];
    var u := TrimStart(t);
    TrimStartSpec(t);
    assert u[|u| - 1] == t[|t| - 1];
  }

  /** Splitting a trimmed, non-empty string on whitespace yields non-empty,
      whitespace-free pieces. */
  lemma {:induction false} SplitWsTrimmed(s: string)
    requires s != "" && NoLeadingWs(s) && NoTrailingWs(s)
    ensures WordPieces(SplitWs(s))
    decreases |s|
  {
    var t := s[1..];
    var rest := SplitWs(t);
    assert SplitWs(s) == [[s[0]] + rest[0]] + rest[1..];
    if t == "" {
      assert rest == [""];
      assert [s[0]] + rest[0] == [s[0]];
      assert SplitWs(s) == [[s[0]]];
    } else if IsWs(t[0]) {
      var u := TrimStart(t);
      TrimStartSpec(t);
      TrimStartOfTail(s);
      SplitWsTrimmed(u);
      assert rest == [""] + SplitWs(u);
      assert [s[0]] + rest[0] == [s[0]];
      assert SplitWs(s) == [[s[0]]] + SplitWs(u);
      WordPiecesCons([s[0]], SplitWs(u));
    } else {
      SplitWsTrimmed(t);
      WordPiecesExtendFirst(s[0], rest);
    }
  }

  /** First position at which `sep` occurs in `s` */
  function IndexOf(s: string, sep: string): (r: Option<nat>)
    ensures r.Some? ==> OccursAt(s, sep, r.value)
    ensures r.Some? ==> forall j :: 0 <= j < r.value ==> !OccursAt(s, sep, j)
    ensures r.None? ==> forall j :: !OccursAt(s, sep, j)
    decreases |s|
  {
    if StartsWith(s, sep) then Some(0)
    else if |s| <= |sep| then
      assert forall j :: OccursAt(s, sep, j) ==> j == 0;
      None
    else
      OccursShift(s, sep);
      match IndexOf(s[1..], sep)
      case None => None
      case Some(i) => Some(i + 1)
  }

  /** Occurrences past the first position are the occurrences in the tail. */
  lemma OccursShift(s: string, sep: string)
    requires |s| > 0
    ensures forall j :: 1 <= j ==> (OccursAt(s, sep, j) <==> OccursAt(s[1..], sep, j - 1))
  {
    forall j | 1 <= j ensures OccursAt(s, sep, j) <==> OccursAt(s[1..], sep, j - 1) {
      if j + |sep| <= |s| {
        assert s[1..][j - 1..j - 1 + |sep|] == s[j..j + |sep|];
      }
    }
  }

  /** `s.split(sep)` for a non-empty string separator */
  function Split(s: string, sep: string): (r: seq<string>)
    requires |sep| > 0
    ensures |r| >= 1
    decreases |s|
  {
    match IndexOf(s, sep)
    case None => [s]
    case Some(i) => [s[..i]] + Split(s[i + |sep|..], sep)
  }

  lemma SplitNoOccurrence(s: string, sep: string)
    requires |sep| > 0
    requires forall j :: !OccursAt(s, sep, j)
    ensures Split(s, sep) == [s]
  {
  }

  /** Splitting `a + sep + b`, where `sep` occurs in neither `a` nor `b` nor
      across the joins, gives back `[a, b]`. */
  lemma SplitTwo(a: string, sep: string, b: string)
    requires |sep| > 0
    requires forall j :: 0 <= j < |a| ==> !OccursAt(a + sep + b, sep, j)
    requires forall j :: !OccursAt(b, sep, j)
    ensures Split(a + sep + b, sep) == [a, b]
  {
    var s := a + sep + b;
    assert OccursAt(s, sep, |a|);
    var idx := IndexOf(s, sep);
    assert idx == Some(|a|);
    assert s[..|a|] == a;
    assert s[|a| + |sep|..] == b;
    SplitNoOccurrence(b, sep);
  }

  // ---------------------------------------------------------------------------
  // Numbers as decimal strings

  function DigitChar(d: nat): (c: char)
    requires d < 10
    ensures '0' <= c <= '9'
  {
    ('0' as int + d) as char
  }

  predicate IsDigit(c: char) { '0' <= c <= '9' }

  /** The value of a decimal digit */
  function DigitValue(c: char): (d: nat)
    requires IsDigit(c)
    ensures d < 10 && DigitChar(d) == c
  {
    c as int - '0' as int
  }

  /** The number a string of decimal digits denotes, most significant first */
  function DigitsValue(s: string): nat
    requires forall i :: 0 <= i < |s| ==> IsDigit(s[i])
  {
    if s == [] then 0 else DigitsValue(s[..|s| - 1]) * 10 + DigitValue(s[|s| - 1])
  }

  /** `String(n)` / `${n}` for a non-negative integer */
  function NatToString(n: nat): (r: string)
    ensures |r| >= 1
    ensures forall i :: 0 <= i < |r| ==> IsDigit(r[i])
    ensures r[0] == '0' <==> n == 0
    decreases n
  {
    if n < 10 then [DigitChar(n)] else NatToString(n / 10) + [DigitChar(n % 10)]
  }

  /** Read back as a decimal number, `String(n)` gives `n`; with no leading
      `0` for a positive `n`, it is the one canonical spelling. */
  lemma {:induction false} NatToStringValue(n: nat)
    ensures DigitsValue(NatToString(n)) == n
    decreases n
  {
    var r := NatToString(n);
    if n < 10 {
      assert r[..0] == [];
    } else {
      NatToStringValue(n / 10);
      assert r[..|r| - 1] == NatToString(n / 10);
    }
  }

  /** `String(n)` for any integer */
  function IntToString(n: int): (r: string)
    ensures |r| >= 1
    ensures n < 0 <==> r[0] == '-'
    ensures n < 0 ==> r == "-" + NatToString(-n)
    ensures n >= 0 ==> r == NatToString(n)
  {
    if n < 0 then "-" + NatToString(-n) else NatToString(n)
  }

  /** `String(n)` read back: the digits after an optional minus sign denote
      the magnitude of `n`. */
  lemma IntToStringValue(n: int)
    ensures var r := IntToString(n);
      if n < 0 then |r| >= 2 && r[0] == '-' && (forall i :: 1 <= i < |r| ==> IsDigit(r[i])) && DigitsValue(r[1..]) == -n
      else (forall i :: 0 <= i < |r| ==> IsDigit(r[i])) && DigitsValue(r) == n
  {
    if n < 0 {
      NatToStringValue(-n);
      assert IntToString(n)[1..] == NatToString(-n);
    } else {
      NatToStringValue(n);
    }
  }
}
