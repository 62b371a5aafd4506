/** The text side of the cover-letter PDF: the file name built from the
    candidate's name and the job title, and the split of the letter into
    paragraphs. The page layout itself is not modelled. */
module PdfGenerator {
  import opened Wrappers
  import opened Strings

  // ---------------------------------------------------------------------------
  // File-name parts

  /** The characters a file part keeps: `[a-z0-9]` */
  predicate IsSlugChar(c: char) { 'a' <= c <= 'z' || '0' <= c <= '9' }

  /** Every character is a kept character or a dash. */
  predicate SlugOrDash(s: string) {
    forall i :: 0 <= i < |s| ==> IsSlugChar(s[i]) || s[i] == '-'
  }

  /** No two dashes are adjacent. */
  predicate NoDoubleDash(s: string) {
    forall i, j {:trigger s[i], s[j]} :: 0 <= i < |s| - 1 && j == i + 1 ==> !(s[i] == '-' && s[j] == '-')
  }

  /** A safe file part: kept characters separated by single dashes, with no
      dash at either end */
  predicate FilePart(s: string) {
    SlugOrDash(s) && NoDoubleDash(s) && (s == [] || (s[0] != '-' && s[|s| - 1] != '-'))
  }

  /** The rest of a string after its leading run of characters outside `[a-z0-9]` */
  function SkipRun(s: string): (r: string)
    ensures |r| <= |s|
    ensures r == [] || IsSlugChar(r[0])
    decreases |s|
  {
    if |s| > 0 && !IsSlugChar(s[0]) then SkipRun(s[1..]) else s
  }

  /** `replace(/[^a-z0-9]+/g, "-")`: each maximal run of other characters
      becomes one dash */
  function Dashify(s: string): (r: string)
    ensures s == [] <==> r == []
    ensures |s| > 0 && IsSlugChar(s[0]) ==> r[0] == s[0]
    decreases |s|
  {
    if s == [] then []
    else if IsSlugChar(s[0]) then [s[0]] + Dashify(s[1..])
    else "-" + Dashify(SkipRun(s[1..]))
  }

  /** The string without its leading dashes */
  function DropLeadingDashes(s: string): (r: string)
    ensures |r| <= |s|
    ensures r == [] || r[0] != '-'
    ensures r == s[|s| - |r|..]
    decreases |s|
  {
    if |s| > 0 && s[0] == '-' then DropLeadingDashes(s[1..]) else s
  }

  /** The string without its trailing dashes */
  function DropTrailingDashes(s: string): (r: string)
    ensures |r| <= |s|
    ensures r == [] || r[|r| - 1] != '-'
    ensures r == s[..|r|]
    decreases |s|
  {
    if |s| > 0 && s[|s| - 1] == '-' then DropTrailingDashes(s[..|s| - 1]) else s
  }

  /** `replace(/^-+|-+$/g, "")` */
  function TrimDashes(s: string): string {
    DropTrailingDashes(DropLeadingDashes(s))
  }

  /** `sanitizeFilePart(value)`: "" for a missing or empty value; otherwise
      lower-cased, other characters turned into dashes, end dashes removed */
  function SanitizeFilePart(value: Option<string>): string {
    if value.None? || value.value == "" then ""
    else TrimDashes(Dashify(ToLower(value.value)))
  }

  /** The kept characters of a string, in order */
  function SlugChars(s: string): string
    decreases |s|
  {
    if s == [] then []
    else if IsSlugChar(s[0]) then [s[0]] + SlugChars(s[1..])
    else SlugChars(s[1..])
  }

  lemma {:induction false} SlugCharsSkipRun(s: string)
    ensures SlugChars(SkipRun(s)) == SlugChars(s)
    decreases |s|
  {
    if |s| > 0 && !IsSlugChar(s[0]) {
      SlugCharsSkipRun(s[1..]);
    }
  }

  /** Dashes replace only runs of other characters: the result has only kept
      characters and single dashes, and keeps every kept character in order. */
  lemma {:induction false} DashifyShape(s: string)
    ensures SlugOrDash(Dashify(s)) && NoDoubleDash(Dashify(s))
    ensures SlugChars(Dashify(s)) == SlugChars(s)
    decreases |s|
  {
    if s == [] {
    } else if IsSlugChar(s[0]) {
      DashifyShape(s[1..]);
      var t := Dashify(s[1..]);
      assert Dashify(s) == [s[0]] + t;
      assert ([s[0]] + t)[1..] == t;
    } else {
      var u := SkipRun(s[1..]);
      DashifyShape(u);
      SlugCharsSkipRun(s[1..]);
      var t := Dashify(u);
      assert Dashify(s) == "-" + t;
      assert ("-" + t)[1..] == t;
    }
  }

  /** Kept characters of a slice that drops only dashes */
  lemma {:induction false} SlugCharsDropLeading(s: string)
    ensures SlugChars(DropLeadingDashes(s)) == SlugChars(s)
    decreases |s|
  {
    if |s| > 0 && s[0] == '-' {
      SlugCharsDropLeading(s[1..]);
    }
  }

  lemma {:induction false} SlugCharsAppend(a: string, b: string)
    ensures SlugChars(a + b) == SlugChars(a) + SlugChars(b)
    decreases |a|
  {
    if a != [] {
      assert (a + b)[1..] == a[1..] + b;
      SlugCharsAppend(a[1..], b);
    } else {
      assert a + b == b;
    }
  }

  lemma {:induction false} SlugCharsDropTrailing(s: string)
    ensures SlugChars(DropTrailingDashes(s)) == SlugChars(s)
    decreases |s|
  {
    if |s| > 0 && s[|s| - 1] == '-' {
      var p := s[..|s| - 1];
      SlugCharsDropTrailing(p);
      SlugCharsAppend(p, "-");
      assert p + "-" == s;
    }
  }

  /** A slice keeps the character class and the single dashes. */
  lemma SliceKeepsShape(s: string, t: string, a: int, b: int)
    requires 0 <= a <= b <= |s| && t == s[a..b]
    requires SlugOrDash(s) && NoDoubleDash(s)
    ensures SlugOrDash(t) && NoDoubleDash(t)
  {
    forall i, j | 0 <= i < |t| - 1 && j == i + 1 ensures !(t[i] == '-' && t[j] == '-') {
      assert t[i] == s[a + i] && t[j] == s[a + j];
    }
  }

  /** Removing the end dashes of a string with single dashes leaves a safe
      file part with the same kept characters. */
  lemma TrimDashesShape(d: string)
    requires SlugOrDash(d) && NoDoubleDash(d)
    ensures FilePart(TrimDashes(d)) && SlugChars(TrimDashes(d)) == SlugChars(d)
  {
    var l := DropLeadingDashes(d);
    var r := DropTrailingDashes(l);
    SliceKeepsShape(d, l, |d| - |l|, |d|);
    SliceKeepsShape(l, r, 0, |r|);
    TrimmedEnds(l);
    assert TrimDashes(d) == r;
    assert SlugOrDash(r);
    assert NoDoubleDash(r);
    assert r == [] || (r[0] != '-' && r[|r| - 1] != '-');
    SlugCharsDropLeading(d);
    SlugCharsDropTrailing(l);
  }

  /** Removing the trailing dashes of a string that does not start with one
      leaves neither end a dash. */
  lemma TrimmedEnds(l: string)
    requires l == [] || l[0] != '-'
    ensures var r := DropTrailingDashes(l); r == [] || (r[0] != '-' && r[|r| - 1] != '-')
  {
    var r := DropTrailingDashes(l);
    if r != [] {
      assert r[0] == l[0];
    }
  }

  /** A sanitised part is a safe file part, and it holds exactly the letters
      and digits of the lower-cased value, in order. */
  lemma SanitizeShape(value: Option<string>)
    ensures FilePart(SanitizeFilePart(value))
    ensures value.Some? ==> SlugChars(SanitizeFilePart(value)) == SlugChars(ToLower(value.value))
    ensures value.None? || value.value == "" ==> SanitizeFilePart(value) == ""
  {
    if value.Some? && value.value != "" {
      var lower := ToLower(value.value);
      DashifyShape(lower);
      TrimDashesShape(Dashify(lower));
    }
  }

  /** A string with single dashes between kept characters comes out of the
      dash replacement unchanged. */
  lemma {:induction false} DashifyFixed(s: string)
    requires SlugOrDash(s) && NoDoubleDash(s)
    ensures Dashify(s) == s
    decreases |s|
  {
    if s != [] {
      SliceKeepsShape(s, s[1..], 1, |s|);
      DashifyFixed(s[1..]);
      if !IsSlugChar(s[0]) {
        assert s[0] == '-';
        if |s| > 1 {
          assert s[1] != '-';
        }
        assert SkipRun(s[1..]) == s[1..];
      }
    }
  }

  /** Lower-casing leaves kept characters and dashes alone. */
  lemma ToLowerFixed(s: string)
    requires SlugOrDash(s)
    ensures ToLower(s) == s
  {
    ToLowerSpec(s);
  }

  /** Sanitising twice is sanitising once. */
  lemma SanitizeIdempotent(value: Option<string>)
    ensures SanitizeFilePart(Some(SanitizeFilePart(value))) == SanitizeFilePart(value)
  {
    var s := SanitizeFilePart(value);
    SanitizeShape(value);
    if s != "" {
      ToLowerFixed(s);
      DashifyFixed(s);
      assert DropLeadingDashes(s) == s;
      assert DropTrailingDashes(s) == s;
    }
  }

  // ---------------------------------------------------------------------------
  // The file name

  /** `filter(Boolean)` on strings: the non-empty ones, in order */
  function NonEmpty(parts: seq<string>): (r: seq<string>)
    ensures forall p :: p in r ==> p != ""
    ensures forall p :: p in parts && p != "" ==> p in r
  {
    if parts == [] then []
    else if parts[0] == "" then NonEmpty(parts[1..])
    else [parts[0]] + NonEmpty(parts[1..])
  }

  const DefaultNamePart: string := "candidate"
  const CoverLetterPart: string := "cover-letter"

  /** The name part, falling back to "candidate" */
  function NamePart(candidateName: Option<string>): string {
    if SanitizeFilePart(candidateName) != "" then SanitizeFilePart(candidateName) else DefaultNamePart
  }

  /** The non-empty parts joined by dashes, with the extension */
  function JoinParts(namePart: string, jobPart: string): string {
    Join(NonEmpty([namePart, jobPart, CoverLetterPart]), "-") + ".pdf"
  }

  /** `buildFileName(options)` */
  function BuildFileName(candidateName: Option<string>, jobTitle: Option<string>): string {
    JoinParts(NamePart(candidateName), SanitizeFilePart(jobTitle))
  }

  /** Two safe parts joined by a dash make a safe part. */
  lemma FilePartJoin(a: string, b: string)
    requires FilePart(a) && FilePart(b) && a != "" && b != ""
    ensures FilePart(a + "-" + b)
  {
    var s := a + "-" + b;
    forall i, j | 0 <= i < |s| - 1 && j == i + 1 ensures !(s[i] == '-' && s[j] == '-') {
      if j < |a| {
        assert s[i] == a[i] && s[j] == a[j];
      } else if i > |a| {
        assert s[i] == b[i - |a| - 1] && s[j] == b[j - |a| - 1];
      }
    }
  }

  /** The two fixed parts of the file name are safe file parts. */
  lemma FixedPartsAreFileParts()
    ensures FilePart(CoverLetterPart) && FilePart(DefaultNamePart)
    ensures CoverLetterPart != "" && DefaultNamePart != ""
  {
    var c := "cover-letter";
    assert forall i :: 0 <= i < |c| ==> IsSlugChar(c[i]) || c[i] == '-';
    var n := "candidate";
    assert forall i :: 0 <= i < |n| ==> IsSlugChar(n[i]);
  }

  /** Joining three parts whose outer two are non-empty: only an empty middle
      part is dropped. */
  lemma JoinDropsEmptyMiddle(a: string, b: string, c: string)
    requires a != "" && c != ""
    ensures Join(NonEmpty([a, b, c]), "-") == if b == "" then a + "-" + c else a + "-" + b + "-" + c
  {
    assert NonEmpty([c]) == [c] by {
      assert [c][1..] == [];
    }
    assert NonEmpty([b, c]) == (if b == "" then [] else [b]) + [c] by {
      assert [b, c][1..] == [c];
    }
    assert NonEmpty([a, b, c]) == [a] + NonEmpty([b, c]) by {
      assert [a, b, c][1..] == [b, c];
    }
    if b == "" {
      assert NonEmpty([a, b, c]) == [a, c];
      assert Join([a, c], "-") == a + "-" + c by {
        assert [a, c][1..] == [c];
      }
    } else {
      assert NonEmpty([a, b, c]) == [a, b, c];
      assert Join([b, c], "-") == b + "-" + c by {
        assert [b, c][1..] == [c];
      }
      assert Join([a, b, c], "-") == a + "-" + (b + "-" + c) by {
        assert [a, b, c][1..] == [b, c];
      }
      assert a + "-" + (b + "-" + c) == a + "-" + b + "-" + c;
    }
  }

  /** The dash-joined name of two safe parts and "cover-letter" */
  function FileBase(name: string, job: string): string {
    if job == "" then name + "-" + CoverLetterPart else name + "-" + job + "-" + CoverLetterPart
  }

  /** Joining a non-empty safe name part and a safe job part gives their
      dash-joined base with ".pdf", and the base is itself a safe part. */
  lemma JoinPartsShape(name: string, job: string)
    requires FilePart(name) && name != "" && FilePart(job)
    ensures JoinParts(name, job) == FileBase(name, job) + ".pdf"
    ensures FilePart(FileBase(name, job))
  {
    FixedPartsAreFileParts();
    JoinDropsEmptyMiddle(name, job, CoverLetterPart);
    if job == "" {
      FilePartJoin(name, CoverLetterPart);
    } else {
      FilePartJoin(job, CoverLetterPart);
      FilePartJoin(name, job + "-" + CoverLetterPart);
      assert name + "-" + (job + "-" + CoverLetterPart) == name + "-" + job + "-" + CoverLetterPart;
    }
  }

  /** The name part is the sanitised name, or "candidate" when that is
      empty; either way a non-empty safe part. */
  lemma NamePartShape(candidateName: Option<string>)
    ensures var name := NamePart(candidateName);
      && FilePart(name) && name != ""
      && (SanitizeFilePart(candidateName) == "" ==> name == DefaultNamePart)
      && (SanitizeFilePart(candidateName) != "" ==> name == SanitizeFilePart(candidateName))
  {
    SanitizeShape(candidateName);
    FixedPartsAreFileParts();
  }

  /** The file name is the name part (or "candidate"), then the job part when
      there is one, then "cover-letter", joined by dashes, with ".pdf"; the
      part before ".pdf" is itself a safe file part. */
  lemma BuildFileNameSpec(candidateName: Option<string>, jobTitle: Option<string>)
    ensures var name, job := NamePart(candidateName), SanitizeFilePart(jobTitle);
      var base := if job == "" then name + "-" + CoverLetterPart else name + "-" + job + "-" + CoverLetterPart;
      && BuildFileName(candidateName, jobTitle) == base + ".pdf"
      && FilePart(base)
      && (SanitizeFilePart(candidateName) == "" ==> name == DefaultNamePart)
      && (SanitizeFilePart(candidateName) != "" ==> name == SanitizeFilePart(candidateName))
  {
    var name, job := NamePart(candidateName), SanitizeFilePart(jobTitle);
    NamePartShape(candidateName);
    SanitizeShape(jobTitle);
    JoinPartsShape(name, job);
  }

  // ---------------------------------------------------------------------------
  // Paragraphs

  /** Scanning whitespace from position `k`: the position of the last newline
      met, or `last` when there is none before the run ends */
  function LastNewlineInRun(s: string, k: nat, last: int): (r: int)
    requires k <= |s|
    ensures r == last || (k <= r < |s| && s[r] == '\n')
    decreases |s| - k
  {
    if k < |s| && IsWs(s[k]) then LastNewlineInRun(s, k + 1, if s[k] == '\n' then k else last)
    else last
  }

  /** The pattern `\n\s*\n` matches at position `k`. */
  predicate SeparatorAt(s: string, k: nat)
    requires k < |s|
  {
    s[k] == '\n' && LastNewlineInRun(s, k + 1, -1) >= 0
  }

  /** `split(/\n\s*\n/)`, from a piece that starts at `start`, scanning at `i`:
      the greedy match runs to the last newline of the whitespace run */
  function SplitFrom(s: string, start: nat, i: nat): (r: seq<string>)
    requires start <= i <= |s|
    ensures |r| >= 1
    decreases |s| - i
  {
    if i == |s| then [s[start..]]
    else if SeparatorAt(s, i) then
      var j := LastNewlineInRun(s, i + 1, -1);
      [s[start..i]] + SplitFrom(s, j + 1, j + 1)
    else SplitFrom(s, start, i + 1)
  }

  /** `.map(p => p.trim()).filter(Boolean)` */
  function TrimAll(parts: seq<string>): (r: seq<string>)
    ensures |r| <= |parts|
  {
    if parts == [] then []
    else if Trim(parts[0]) == "" then TrimAll(parts[1..])
    else [Trim(parts[0])] + TrimAll(parts[1..])
  }

  /** The paragraphs of the letter */
  function Paragraphs(letter: string): seq<string> {
    var t := Trim(letter);
    TrimAll(SplitFrom(t, 0, 0))
  }

  /** Positions `a` up to `b` of `s` hold whitespace only. */
  predicate WsBetween(s: string, a: int, b: int)
    requires 0 <= a <= b <= |s|
  {
    forall z :: a <= z < b ==> IsWs(s[z])
  }

  /** No blank line: between two newlines there is always something other
      than whitespace. */
  predicate NoBlankLine(p: string) {
    forall x, y :: 0 <= x < y < |p| && p[x] == '\n' && p[y] == '\n' ==> !WsBetween(p, x + 1, y)
  }

  /** A whitespace run that reaches a newline at `m` makes the scan report a
      newline at or after `m`. */
  lemma {:induction false} RunReachesNewline(s: string, k: nat, m: nat, last: int)
    requires k <= m < |s| && s[m] == '\n' && WsBetween(s, k, m + 1)
    ensures LastNewlineInRun(s, k, last) >= m
    decreases m - k
  {
    if k < m {
      RunReachesNewline(s, k + 1, m, if s[k] == '\n' then k else last);
    } else {
      LastNewlineAtLeast(s, k + 1, k);
    }
  }

  /** Scanning never reports less than the newline already recorded. */
  lemma {:induction false} LastNewlineAtLeast(s: string, k: nat, last: int)
    requires k <= |s| && last < k
    ensures LastNewlineInRun(s, k, last) >= last
    decreases |s| - k
  {
    if k < |s| && IsWs(s[k]) {
      LastNewlineAtLeast(s, k + 1, if s[k] == '\n' then k else last);
    }
  }

  /** Two newlines with only whitespace between them: the pattern matches at
      the first. */
  lemma BlankLineSeparates(s: string, x: nat, y: nat)
    requires x < y < |s| && s[x] == '\n' && s[y] == '\n' && WsBetween(s, x + 1, y + 1)
    ensures SeparatorAt(s, x)
  {
    RunReachesNewline(s, x + 1, y, -1);
  }

  /** A stretch of the text in which the pattern matches nowhere */
  predicate NoSeparatorIn(s: string, a: nat, b: nat)
    requires a <= b <= |s|
  {
    forall k :: a <= k < b ==> !SeparatorAt(s, k)
  }

  /** Such a stretch has no blank line. */
  lemma NoSeparatorNoBlankLine(s: string, a: nat, b: nat)
    requires a <= b <= |s| && NoSeparatorIn(s, a, b)
    ensures NoBlankLine(s[a..b])
  {
    var p := s[a..b];
    forall x, y | 0 <= x < y < |p| && p[x] == '\n' && p[y] == '\n' ensures !WsBetween(p, x + 1, y) {
      if WsBetween(p, x + 1, y) {
        assert s[a + x] == '\n' && s[a + y] == '\n';
        assert WsBetween(s, a + x + 1, a + y + 1) by {
          forall z | a + x + 1 <= z < a + y + 1 ensures IsWs(s[z]) {
            assert z < a + y ==> s[z] == p[z - a];
          }
        }
        BlankLineSeparates(s, a + x, a + y);
        assert false;
      }
    }
  }

  /** A slice of a text without blank lines has none. */
  lemma NoBlankLineSlice(p: string, a: int, b: int)
    requires 0 <= a <= b <= |p| && NoBlankLine(p)
    ensures NoBlankLine(p[a..b])
  {
    var q := p[a..b];
    forall x, y | 0 <= x < y < |q| && q[x] == '\n' && q[y] == '\n' ensures !WsBetween(q, x + 1, y) {
      assert p[a + x] == '\n' && p[a + y] == '\n';
      assert !WsBetween(p, a + x + 1, a + y);
      var z :| a + x + 1 <= z < a + y && !IsWs(p[z]);
      assert q[z - a] == p[z];
    }
  }

  /** Where `trim` starts keeping characters */
  function TrimOffset(s: string): nat {
    |s| - |TrimStart(s)|
  }

  /** `trim` keeps a slice of its input. */
  lemma TrimIsSlice(s: string)
    ensures TrimOffset(s) + |Trim(s)| <= |s|
    ensures Trim(s) == s[TrimOffset(s)..TrimOffset(s) + |Trim(s)|]
  {
    TrimStartSpec(s);
    var t := TrimStart(s);
    TrimEndSpec(t);
  }

  /** Every piece of the split is a stretch without a match. */
  lemma {:induction false} SplitFromPieces(s: string, start: nat, i: nat)
    requires start <= i <= |s| && NoSeparatorIn(s, start, i)
    ensures forall c :: c in SplitFrom(s, start, i) ==> NoBlankLine(c)
    decreases |s| - i
  {
    if i == |s| {
      NoSeparatorNoBlankLine(s, start, i);
      assert s[start..] == s[start..i];
    } else if SeparatorAt(s, i) {
      var j := LastNewlineInRun(s, i + 1, -1);
      NoSeparatorNoBlankLine(s, start, i);
      SplitFromPieces(s, j + 1, j + 1);
    } else {
      SplitFromPieces(s, start, i + 1);
    }
  }

  /** Trimmed pieces without blank lines */
  lemma {:induction false} TrimAllShape(parts: seq<string>)
    requires forall c :: c in parts ==> NoBlankLine(c)
    ensures forall p :: p in TrimAll(parts) ==>
              p != "" && NoLeadingWs(p) && NoTrailingWs(p) && NoBlankLine(p)
  {
    if parts != [] {
      TrimAllShape(parts[1..]);
      TrimIsSlice(parts[0]);
      var a := TrimOffset(parts[0]);
      NoBlankLineSlice(parts[0], a, a + |Trim(parts[0])|);
    }
  }

  /** Every paragraph is non-empty, trimmed, and holds no blank line. */
  lemma ParagraphsShape(letter: string)
    ensures forall p :: p in Paragraphs(letter) ==>
              p != "" && NoLeadingWs(p) && NoTrailingWs(p) && NoBlankLine(p)
  {
    var t := Trim(letter);
    SplitFromPieces(t, 0, 0);
    TrimAllShape(SplitFrom(t, 0, 0));
  }

  /** Without a line break the split leaves the text whole. */
  lemma {:induction false} SplitWithoutNewline(s: string, start: nat, i: nat)
    requires start <= i <= |s|
    requires forall k :: 0 <= k < |s| ==> s[k] != '\n'
    ensures SplitFrom(s, start, i) == [s[start..]]
    decreases |s| - i
  {
    if i < |s| {
      SplitWithoutNewline(s, start, i + 1);
    }
  }

  /** A letter without line breaks is one paragraph, its trimmed text, or
      none when it is blank. */
  lemma SingleLineLetter(letter: string)
    requires forall k :: 0 <= k < |letter| ==> letter[k] != '\n'
    ensures Paragraphs(letter) == if Trim(letter) == "" then [] else [Trim(letter)]
  {
    var t := Trim(letter);
    TrimIsSlice(letter);
    SplitWithoutNewline(t, 0, 0);
    assert t[0..] == t;
    TrimNoop(t);
  }

  // ---------------------------------------------------------------------------
  // Where the paragraphs sit in the letter

  /** `gaps[0] + parts[0] + gaps[1] + ... + parts[n - 1] + gaps[n]` */
  function Interleave(gaps: seq<string>, parts: seq<string>): string
    requires |gaps| == |parts| + 1
    decreases parts
  {
    if parts == [] then gaps[0]
    else gaps[0] + parts[0] + Interleave(gaps[1..], parts[1..])
  }

  /** Whitespace holding two line breaks: a blank line lies between them. */
  predicate HoldsBlankLine(g: string) {
    AllWs(g) && exists x, y :: 0 <= x < y < |g| && g[x] == '\n' && g[y] == '\n'
  }

  /** The gaps around paragraphs: whitespace only, and a blank line in every
      gap between two paragraphs */
  predicate GapsSeparate(gaps: seq<string>) {
    && (forall k :: 0 <= k < |gaps| ==> AllWs(gaps[k]))
    && (forall k :: 0 < k < |gaps| - 1 ==> HoldsBlankLine(gaps[k]))
  }

  lemma AllWsConcat(a: string, b: string)
    requires AllWs(a) && AllWs(b)
    ensures AllWs(a + b)
  {
    forall i | 0 <= i < |a + b| ensures IsWs((a + b)[i]) {
      if i >= |a| {
        assert (a + b)[i] == b[i - |a|];
      }
    }
  }

  /** A blank line inside a stretch of whitespace is a blank line of it. */
  lemma BlankLineWithin(g: string, h: string, off: nat)
    requires HoldsBlankLine(g) && AllWs(h)
    requires off + |g| <= |h| && h[off..off + |g|] == g
    ensures HoldsBlankLine(h)
  {
    var x, y :| 0 <= x < y < |g| && g[x] == '\n' && g[y] == '\n';
    assert h[off + x] == g[x] && h[off + y] == g[y];
  }

  lemma GapsTail(gaps: seq<string>)
    requires |gaps| >= 1 && GapsSeparate(gaps)
    ensures GapsSeparate(gaps[1..])
  {
    forall k | 0 <= k < |gaps| - 1 ensures gaps[1..][k] == gaps[k + 1] {}
  }

  /** A new gap in front, holding a blank line when a piece follows it */
  lemma GapsCons(g: string, gaps: seq<string>)
    requires |gaps| >= 1 && GapsSeparate(gaps) && AllWs(g)
    requires |gaps| >= 2 ==> HoldsBlankLine(gaps[0])
    ensures GapsSeparate([g] + gaps)
  {
    forall k | 0 < k < |gaps| + 1 ensures ([g] + gaps)[k] == gaps[k - 1] {}
  }

  /** The first gap replaced by other whitespace */
  lemma GapsReplaceFirst(h: string, gaps: seq<string>)
    requires |gaps| >= 1 && GapsSeparate(gaps) && AllWs(h)
    ensures GapsSeparate([h] + gaps[1..])
  {
    forall k | 0 < k < |gaps| ensures ([h] + gaps[1..])[k] == gaps[k] {}
  }

  /** The last gap replaced by other whitespace */
  lemma GapsReplaceLast(gaps: seq<string>, h: string)
    requires |gaps| >= 1 && GapsSeparate(gaps) && AllWs(h)
    ensures GapsSeparate(gaps[..|gaps| - 1] + [h])
  {
    forall k | 0 <= k < |gaps| - 1 ensures (gaps[..|gaps| - 1] + [h])[k] == gaps[k] {}
  }

  /** Text put in front of the first gap comes in front of the whole. */
  lemma PrependToFirstGap(x: string, gaps: seq<string>, parts: seq<string>)
    requires |gaps| == |parts| + 1
    ensures Interleave([x + gaps[0]] + gaps[1..], parts) == x + Interleave(gaps, parts)
  {
    var gs := [x + gaps[0]] + gaps[1..];
    assert gs[1..] == gaps[1..];
  }

  /** Text put after the last gap comes after the whole. */
  lemma {:induction false} AppendToLastGap(gaps: seq<string>, parts: seq<string>, x: string)
    requires |gaps| == |parts| + 1
    ensures Interleave(gaps[..|parts|] + [gaps[|parts|] + x], parts) == Interleave(gaps, parts) + x
    decreases parts
  {
    var gs := gaps[..|parts|] + [gaps[|parts|] + x];
    if parts != [] {
      AppendToLastGap(gaps[1..], parts[1..], x);
      assert gs[1..] == gaps[1..][..|parts[1..]|] + [gaps[1..][|parts[1..]|] + x];
    }
  }

  /** `trim` cuts its input into leading whitespace, the result and trailing
      whitespace. */
  lemma TrimSplit(c: string)
    ensures TrimOffset(c) + |Trim(c)| <= |c|
    ensures c == c[..TrimOffset(c)] + Trim(c) + c[TrimOffset(c) + |Trim(c)|..]
    ensures AllWs(c[..TrimOffset(c)]) && AllWs(c[TrimOffset(c) + |Trim(c)|..])
  {
    TrimStartSpec(c);
    var t := TrimStart(c);
    TrimEndSpec(t);
    var a := TrimOffset(c);
    var p := Trim(c);
    assert t == c[a..];
    assert p == TrimEnd(t);
    assert t == p + t[|p|..];
    assert t[|p|..] == c[a + |p|..];
    assert c == c[..a] + t;
  }

  /** The scan of a whitespace run covers whitespace up to the newline it
      reports. */
  lemma {:induction false} LastNewlineRunIsWs(s: string, k: nat, last: int)
    requires k <= |s| && last < k
    ensures var r := LastNewlineInRun(s, k, last);
      r == last || (k <= r && WsBetween(s, k, r + 1))
    decreases |s| - k
  {
    if k < |s| && IsWs(s[k]) {
      var next := if s[k] == '\n' then k else last;
      LastNewlineRunIsWs(s, k + 1, next);
      var r := LastNewlineInRun(s, k + 1, next);
      if r != next {
        forall z | k <= z < r + 1 ensures IsWs(s[z]) {
          if z > k {
            assert WsBetween(s, k + 1, r + 1);
          }
        }
      }
    }
  }

  /** What a match of `\n\s*\n` covers holds a blank line. */
  lemma SeparatorHoldsBlankLine(s: string, i: nat)
    requires i < |s| && SeparatorAt(s, i)
    ensures var j := LastNewlineInRun(s, i + 1, -1);
      i < j < |s| && HoldsBlankLine(s[i..j + 1])
  {
    var j := LastNewlineInRun(s, i + 1, -1);
    LastNewlineRunIsWs(s, i + 1, -1);
    var g := s[i..j + 1];
    forall z | 0 <= z < |g| ensures IsWs(g[z]) {
      assert g[z] == s[i + z];
    }
    assert 0 < j - i < |g| && g[0] == '\n' && g[j - i] == '\n';
  }

  /** The pieces of the split, laid back into the text with the matches as
      gaps */
  lemma {:induction false} SplitFromLayout(s: string, start: nat, i: nat) returns (gaps: seq<string>)
    requires start <= i <= |s|
    ensures |gaps| == |SplitFrom(s, start, i)| + 1
    ensures s[start..] == Interleave(gaps, SplitFrom(s, start, i))
    ensures gaps[0] == "" && GapsSeparate(gaps)
    decreases |s| - i
  {
    if i == |s| {
      gaps := ["", ""];
      assert Interleave(gaps[1..], []) == "";
    } else if SeparatorAt(s, i) {
      var j := LastNewlineInRun(s, i + 1, -1);
      SeparatorHoldsBlankLine(s, i);
      var rest := SplitFromLayout(s, j + 1, j + 1);
      gaps := SeparatorStep(s, start, i, j, rest);
    } else {
      gaps := SplitFromLayout(s, start, i + 1);
    }
  }

  /** The step of `SplitFromLayout` at a match from `i` to `j` */
  lemma SeparatorStep(s: string, start: nat, i: nat, j: nat, rest: seq<string>) returns (gaps: seq<string>)
    requires start <= i < j < |s| && HoldsBlankLine(s[i..j + 1])
    requires |rest| == |SplitFrom(s, j + 1, j + 1)| + 1
    requires s[j + 1..] == Interleave(rest, SplitFrom(s, j + 1, j + 1))
    requires rest[0] == "" && GapsSeparate(rest)
    ensures |gaps| == |SplitFrom(s, j + 1, j + 1)| + 2
    ensures s[start..] == Interleave(gaps, [s[start..i]] + SplitFrom(s, j + 1, j + 1))
    ensures gaps[0] == "" && GapsSeparate(gaps)
  {
    var sep := s[i..j + 1];
    var more := SplitFrom(s, j + 1, j + 1);
    var tail := [sep] + rest[1..];
    assert sep + rest[0] == sep;
    PrependToFirstGap(sep, rest, more);
    GapsReplaceFirst(sep, rest);
    GapsCons("", tail);
    gaps := [""] + tail;
    assert gaps[1..] == tail;
    assert ([s[start..i]] + more)[1..] == more;
    assert s[start..] == s[start..i] + (sep + s[j + 1..]);
  }

  /** Trimming the pieces and dropping the empty ones moves their whitespace
      into the gaps, which stay whitespace with a blank line between two kept
      pieces. */
  lemma {:induction false} TrimAllLayout(gaps: seq<string>, parts: seq<string>) returns (gaps2: seq<string>)
    requires |gaps| == |parts| + 1 && GapsSeparate(gaps)
    ensures |gaps2| == |TrimAll(parts)| + 1
    ensures Interleave(gaps2, TrimAll(parts)) == Interleave(gaps, parts)
    ensures GapsSeparate(gaps2) && gaps[0] <= gaps2[0]
    decreases parts
  {
    if parts == [] {
      gaps2 := gaps;
    } else {
      GapsTail(gaps);
      var rest := TrimAllLayout(gaps[1..], parts[1..]);
      if Trim(parts[0]) == "" {
        gaps2 := DroppedPiece(gaps, parts, rest);
      } else {
        gaps2 := KeptPiece(gaps, parts, rest);
      }
    }
  }

  /** The step of `TrimAllLayout` for a first piece that trims to nothing */
  lemma DroppedPiece(gaps: seq<string>, parts: seq<string>, rest: seq<string>) returns (gaps2: seq<string>)
    requires |gaps| == |parts| + 1 && |parts| >= 1 && GapsSeparate(gaps)
    requires Trim(parts[0]) == ""
    requires |rest| == |TrimAll(parts[1..])| + 1 && GapsSeparate(rest) && gaps[1] <= rest[0]
    requires Interleave(rest, TrimAll(parts[1..])) == Interleave(gaps[1..], parts[1..])
    ensures |gaps2| == |TrimAll(parts)| + 1
    ensures Interleave(gaps2, TrimAll(parts)) == Interleave(gaps, parts)
    ensures GapsSeparate(gaps2) && gaps[0] <= gaps2[0]
  {
    var c := parts[0];
    TrimSplit(c);
    var a := TrimOffset(c);
    AllWsConcat(c[..a], c[a..]);
    AllWsConcat(gaps[0], c);
    AllWsConcat(gaps[0] + c, rest[0]);
    gaps2 := [gaps[0] + c + rest[0]] + rest[1..];
    assert gaps[0] + c + rest[0] == (gaps[0] + c) + rest[0];
    PrependToFirstGap(gaps[0] + c, rest, TrimAll(parts[1..]));
    GapsReplaceFirst(gaps[0] + c + rest[0], rest);
  }

  /** The step of `TrimAllLayout` for a first piece that keeps text */
  lemma KeptPiece(gaps: seq<string>, parts: seq<string>, rest: seq<string>) returns (gaps2: seq<string>)
    requires |gaps| == |parts| + 1 && |parts| >= 1 && GapsSeparate(gaps)
    requires Trim(parts[0]) != ""
    requires |rest| == |TrimAll(parts[1..])| + 1 && GapsSeparate(rest) && gaps[1] <= rest[0]
    requires Interleave(rest, TrimAll(parts[1..])) == Interleave(gaps[1..], parts[1..])
    ensures |gaps2| == |TrimAll(parts)| + 1
    ensures Interleave(gaps2, TrimAll(parts)) == Interleave(gaps, parts)
    ensures GapsSeparate(gaps2) && gaps[0] <= gaps2[0]
  {
    var c := parts[0];
    var p := Trim(c);
    var more := TrimAll(parts[1..]);
    TrimSplit(c);
    var a := TrimOffset(c);
    var lead, trail := c[..a], c[a + |p|..];
    AllWsConcat(gaps[0], lead);
    AllWsConcat(trail, rest[0]);
    var tail := [trail + rest[0]] + rest[1..];
    PrependToFirstGap(trail, rest, more);
    GapsReplaceFirst(trail + rest[0], rest);
    if more != [] {
      assert (trail + rest[0])[|trail|..|trail| + |gaps[1]|] == gaps[1];
      BlankLineWithin(gaps[1], trail + rest[0], |trail|);
    }
    GapsCons(gaps[0] + lead, tail);
    gaps2 := [gaps[0] + lead] + tail;
    assert gaps2[1..] == tail;
    KeptEquation(gaps[0], lead, p, trail, Interleave(rest, more));
  }

  lemma KeptEquation(g: string, lead: string, p: string, trail: string, rest: string)
    ensures (g + lead) + p + (trail + rest) == g + (lead + p + trail) + rest
  {
  }

  /** The paragraphs laid back into the trimmed letter */
  lemma TrimmedLayout(t: string) returns (gaps: seq<string>)
    ensures |gaps| == |TrimAll(SplitFrom(t, 0, 0))| + 1 && GapsSeparate(gaps)
    ensures t == Interleave(gaps, TrimAll(SplitFrom(t, 0, 0)))
  {
    var g1 := SplitFromLayout(t, 0, 0);
    assert t[0..] == t;
    gaps := TrimAllLayout(g1, SplitFrom(t, 0, 0));
  }

  /** Whitespace around the whole joins the first and the last gap. */
  lemma WrapGaps(lead: string, gaps: seq<string>, parts: seq<string>, trail: string) returns (gaps2: seq<string>)
    requires |gaps| == |parts| + 1 && GapsSeparate(gaps) && AllWs(lead) && AllWs(trail)
    ensures |gaps2| == |parts| + 1 && GapsSeparate(gaps2)
    ensures Interleave(gaps2, parts) == lead + (Interleave(gaps, parts) + trail)
  {
    var n := |parts|;
    AllWsConcat(gaps[n], trail);
    var g3 := gaps[..n] + [gaps[n] + trail];
    AppendToLastGap(gaps, parts, trail);
    GapsReplaceLast(gaps, gaps[n] + trail);
    AllWsConcat(lead, g3[0]);
    gaps2 := [lead + g3[0]] + g3[1..];
    PrependToFirstGap(lead, g3, parts);
    GapsReplaceFirst(lead + g3[0], g3);
  }

  /** The letter is its paragraphs in order, with whitespace only around and
      between them, and a blank line between any two. */
  lemma ParagraphsLayout(letter: string)
    ensures exists gaps :: |gaps| == |Paragraphs(letter)| + 1 && GapsSeparate(gaps)
                           && letter == Interleave(gaps, Paragraphs(letter))
  {
    var t := Trim(letter);
    var ps := Paragraphs(letter);
    assert ps == TrimAll(SplitFrom(t, 0, 0));
    var g2 := TrimmedLayout(t);
    TrimSplit(letter);
    var a := TrimOffset(letter);
    var g4 := WrapGaps(letter[..a], g2, ps, letter[a + |t|..]);
    assert letter == letter[..a] + (t + letter[a + |t|..]);
  }

  /** The characters of `s` other than whitespace, in order */
  function Visible(s: string): string {
    if s == [] then [] else (if IsWs(s[0]) then [] else [s[0]]) + Visible(s[1..])
  }

  lemma {:induction false} VisibleConcat(a: string, b: string)
    ensures Visible(a + b) == Visible(a) + Visible(b)
    decreases |a|
  {
    if a != [] {
      var h: string := if IsWs(a[0]) then [] else [a[0]];
      assert (a + b)[0] == a[0];
      assert (a + b)[1..] == a[1..] + b;
      VisibleConcat(a[1..], b);
      assert Visible(a) == h + Visible(a[1..]);
      assert Visible(a + b) == h + Visible(a[1..] + b);
      assert h + (Visible(a[1..]) + Visible(b)) == (h + Visible(a[1..])) + Visible(b);
    } else {
      assert a + b == b;
    }
  }

  lemma {:induction false} VisibleOfWs(s: string)
    requires AllWs(s)
    ensures Visible(s) == []
    decreases |s|
  {
    if s != [] {
      VisibleOfWs(s[1..]);
    }
  }

  /** Whitespace gaps add no visible text. */
  lemma {:induction false} VisibleInterleave(gaps: seq<string>, parts: seq<string>)
    requires |gaps| == |parts| + 1 && GapsSeparate(gaps)
    ensures Visible(Interleave(gaps, parts)) == Visible(Join(parts, ""))
    decreases parts
  {
    VisibleOfWs(gaps[0]);
    if parts != [] {
      GapsTail(gaps);
      var rest := Interleave(gaps[1..], parts[1..]);
      VisibleInterleave(gaps[1..], parts[1..]);
      VisibleConcat(gaps[0] + parts[0], rest);
      VisibleConcat(gaps[0], parts[0]);
      if |parts| > 1 {
        assert Join(parts, "") == parts[0] + Join(parts[1..], "");
        VisibleConcat(parts[0], Join(parts[1..], ""));
      }
    }
  }

  /** The paragraphs, run together, keep every visible character of the
      letter, in order, and add none. */
  lemma ParagraphsKeepText(letter: string)
    ensures Visible(Join(Paragraphs(letter), "")) == Visible(letter)
  {
    ParagraphsLayout(letter);
    var gaps :| |gaps| == |Paragraphs(letter)| + 1 && GapsSeparate(gaps)
                && letter == Interleave(gaps, Paragraphs(letter));
    VisibleInterleave(gaps, Paragraphs(letter));
  }

  // ---------------------------------------------------------------------------
  // Page text

  /** A present, non-empty option: JavaScript truthiness of an optional string */
  predicate Given(s: Option<string>) { s.Some? && s.value != "" }

  /** The lines under the heading: the candidate's name, the role line and the
      source URL, each only when given, in that order */
  function MetaLines(candidateName: Option<string>, jobTitle: Option<string>, sourceUrl: Option<string>): (r: seq<string>)
    ensures |r| == (if Given(candidateName) then 1 else 0) + (if Given(jobTitle) then 1 else 0)
                   + (if Given(sourceUrl) then 1 else 0)
    ensures Given(candidateName) ==> r[0] == candidateName.value
    ensures Given(jobTitle) ==> r[if Given(candidateName) then 1 else 0] == "Role: " + jobTitle.value
    ensures Given(sourceUrl) ==> r[|r| - 1] == sourceUrl.value
    ensures forall l :: l in r ==> l != ""
  {
    (if Given(candidateName) then [candidateName.value] else [])
    + (if Given(jobTitle) then ["Role: " + jobTitle.value] else [])
    + (if Given(sourceUrl) then [sourceUrl.value] else [])
  }

  /** The text of a paragraph handed to the line wrapper: every whitespace run
      becomes one space, nothing is lost but whitespace, and a paragraph that
      starts with text still does. */
  function ParagraphText(p: string): (r: string)
    ensures SingleSpaced(r) && |r| <= |p|
    ensures p != "" <==> r != ""
    ensures NoLeadingWs(p) ==> NoLeadingWs(r)
  {
    CollapseShape(p);
    Collapse(p)
  }
}
