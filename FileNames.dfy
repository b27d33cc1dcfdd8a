/**
 * The pure naming helpers of the screenshot sweep: `sanitizeFileSegment`,
 * which turns a free-form label into a safe file-name segment, and
 * `timestampSlug`, which makes an ISO-8601 instant safe for file names.
 * Character handling is restricted to ASCII (see README).
 */
module FileNames {
  import opened Text

  /** Characters that `String.prototype.trim` removes (ASCII subset). */
  predicate IsWhitespace(c: char) {
    c == ' ' || c == '\t' || c == '\n' || c == '\r' || c == '\U{0B}' || c == '\U{0C}'
  }

  predicate IsSegmentChar(c: char) { IsLowerAlnum(c) || c == '-' }

  predicate NoDoubleHyphen(s: string) {
    forall i :: 0 < i < |s| ==> s[i - 1] != '-' || s[i] != '-'
  }

  /** A non-empty string over `[a-z0-9-]` with no hyphen at either end and no `--`. */
  predicate IsCleanSegment(s: string) {
    && |s| > 0
    && (forall i :: 0 <= i < |s| ==> IsSegmentChar(s[i]))
    && s[0] != '-' && s[|s| - 1] != '-'
    && NoDoubleHyphen(s)
  }

  /** The characters of `s` in `[a-z0-9]`, in order. */
  function AlnumOf(s: string): string {
    if s == [] then [] else (if IsLowerAlnum(s[0]) then [s[0]] else []) + AlnumOf(s[1..])
  }

  function TrimStart(s: string): string {
    if s != [] && IsWhitespace(s[0]) then TrimStart(s[1..]) else s
  }

  function TrimEnd(s: string): string {
    if s != [] && IsWhitespace(s[|s| - 1]) then TrimEnd(s[..|s| - 1]) else s
  }

  /** `value.trim()` */
  function Trim(s: string): string {
    TrimEnd(TrimStart(s))
  }

  function ToLowerChar(c: char): char {
    if 'A' <= c <= 'Z' then (c as int - 'A' as int + 'a' as int) as char else c
  }

  /** `toLowerCase()` on ASCII letters. */
  function ToLower(s: string): string {
    if s == [] then [] else [ToLowerChar(s[0])] + ToLower(s[1..])
  }

  /** Drops the leading run of characters outside `[a-z0-9]`. */
  function SkipRun(s: string): (r: string)
    ensures |r| <= |s|
    ensures s != [] && !IsLowerAlnum(s[0]) ==> |r| < |s|
  {
    if s == [] || IsLowerAlnum(s[0]) then s else SkipRun(s[1..])
  }

  /** `replace(/[^a-z0-9]+/g, '-')`: every maximal run outside `[a-z0-9]` becomes one hyphen. */
  function CollapseRuns(s: string): string
    decreases |s|
  {
    if s == [] then []
    else if IsLowerAlnum(s[0]) then [s[0]] + CollapseRuns(s[1..])
    else "-" + CollapseRuns(SkipRun(s))
  }

  /** `replace(/^-+/, '')` */
  function TrimLeadingHyphens(s: string): string {
    if s != [] && s[0] == '-' then TrimLeadingHyphens(s[1..]) else s
  }

  /** `replace(/-+$/, '')` */
  function TrimTrailingHyphens(s: string): string {
    if s != [] && s[|s| - 1] == '-' then TrimTrailingHyphens(s[..|s| - 1]) else s
  }

  const Fallback: string := "screenshot"

  /** `sanitizeFileSegment(value)` */
  function SanitizeFileSegment(value: string): string {
    var cleaned := CollapseRuns(ToLower(Trim(value)));
    var stripped := TrimTrailingHyphens(TrimLeadingHyphens(cleaned));
    if stripped == [] then Fallback else stripped
  }

  /** `timestampSlug()` applied to a given ISO-8601 instant: `:` and `.` become `-`. */
  function TimestampSlug(iso: string): string {
    if iso == [] then [] else [if iso[0] == ':' || iso[0] == '.' then '-' else iso[0]] + TimestampSlug(iso[1..])
  }

  // ---------------------------------------------------------------------------
  // Properties of the helpers
  // ---------------------------------------------------------------------------

  lemma {:induction false} TrimStartShape(s: string)
    ensures var r := TrimStart(s);
      && |r| <= |s| && r == s[|s| - |r|..]
      && (forall i :: 0 <= i < |s| - |r| ==> IsWhitespace(s[i]))
      && (r == [] || !IsWhitespace(r[0]))
    decreases |s|
  {
    if s != [] && IsWhitespace(s[0]) { TrimStartShape(s[1..]); }
  }

  lemma {:induction false} TrimEndShape(s: string)
    ensures var r := TrimEnd(s);
      && |r| <= |s| && r == s[..|r|]
      && (forall i :: |r| <= i < |s| ==> IsWhitespace(s[i]))
      && (r == [] || !IsWhitespace(r[|r| - 1]))
    decreases |s|
  {
    if s != [] && IsWhitespace(s[|s| - 1]) { TrimEndShape(s[..|s| - 1]); }
  }

  lemma {:induction false} ToLowerAt(s: string)
    ensures |ToLower(s)| == |s| && forall i :: 0 <= i < |s| ==> ToLower(s)[i] == ToLowerChar(s[i])
    decreases |s|
  {
    if s != [] { ToLowerAt(s[1..]); }
  }

  lemma {:induction false} SkipRunShape(s: string)
    ensures var r := SkipRun(s);
      && r == s[|s| - |r|..]
      && (forall i :: 0 <= i < |s| - |r| ==> !IsLowerAlnum(s[i]))
      && (r == [] || IsLowerAlnum(r[0]))
    decreases |s|
  {
    if s != [] && !IsLowerAlnum(s[0]) { SkipRunShape(s[1..]); }
  }

  lemma {:induction false} TrimLeadingHyphensShape(s: string)
    ensures var r := TrimLeadingHyphens(s);
      && |r| <= |s| && r == s[|s| - |r|..]
      && (forall i :: 0 <= i < |s| - |r| ==> s[i] == '-')
      && (r == [] || r[0] != '-')
    decreases |s|
  {
    if s != [] && s[0] == '-' { TrimLeadingHyphensShape(s[1..]); }
  }

  lemma {:induction false} TrimTrailingHyphensShape(s: string)
    ensures var r := TrimTrailingHyphens(s);
      && |r| <= |s| && r == s[..|r|]
      && (forall i :: |r| <= i < |s| ==> s[i] == '-')
      && (r == [] || r[|r| - 1] != '-')
    decreases |s|
  {
    if s != [] && s[|s| - 1] == '-' { TrimTrailingHyphensShape(s[..|s| - 1]); }
  }

  predicate AllSegmentChars(s: string) {
    forall i :: 0 <= i < |s| ==> IsSegmentChar(s[i])
  }

  lemma {:induction false} AlnumOfAppend(a: string, b: string)
    ensures AlnumOf(a + b) == AlnumOf(a) + AlnumOf(b)
    decreases |a|
  {
    if a == [] {
      assert a + b == b;
    } else {
      assert (a + b)[0] == a[0];
      assert (a + b)[1..] == a[1..] + b;
      AlnumOfAppend(a[1..], b);
    }
  }

  lemma {:induction false} AlnumOfNone(s: string)
    requires forall i :: 0 <= i < |s| ==> !IsLowerAlnum(s[i])
    ensures AlnumOf(s) == []
    decreases |s|
  {
    if s != [] { AlnumOfNone(s[1..]); }
  }

  /** A slice of a string over `[a-z0-9-]` without `--` is again one. */
  lemma SliceKeepsSegmentShape(s: string, lo: nat, hi: nat)
    requires lo <= hi <= |s|
    requires AllSegmentChars(s) && NoDoubleHyphen(s)
    ensures AllSegmentChars(s[lo..hi]) && NoDoubleHyphen(s[lo..hi])
  {
    var t := s[lo..hi];
    assert forall i :: 0 <= i < |t| ==> t[i] == s[lo + i];
  }

  /** The collapsed string is over `[a-z0-9-]` and is empty only for empty input. */
  lemma {:induction false} CollapseRunsChars(s: string)
    ensures AllSegmentChars(CollapseRuns(s))
    ensures CollapseRuns(s) == [] <==> s == []
    decreases |s|
  {
    if s == [] {
    } else if IsLowerAlnum(s[0]) {
      CollapseRunsChars(s[1..]);
    } else {
      CollapseRunsChars(SkipRun(s));
    }
  }

  /** The collapsed string starts with a hyphen exactly when the input starts outside
      `[a-z0-9]`, and never contains `--`. */
  lemma {:induction false} CollapseRunsNoDoubleHyphen(s: string)
    ensures s != [] ==> (CollapseRuns(s)[0] == '-' <==> !IsLowerAlnum(s[0]))
    ensures NoDoubleHyphen(CollapseRuns(s))
    decreases |s|
  {
    if s == [] {
    } else if IsLowerAlnum(s[0]) {
      CollapseRunsNoDoubleHyphen(s[1..]);
      var tail := CollapseRuns(s[1..]);
      assert forall i :: 0 < i < |tail| + 1 ==> ([s[0]] + tail)[i] == tail[i - 1];
    } else {
      var rest := SkipRun(s);
      SkipRunShape(s);
      CollapseRunsNoDoubleHyphen(rest);
      var tail := CollapseRuns(rest);
      assert forall i :: 0 < i < |tail| + 1 ==> ("-" + tail)[i] == tail[i - 1];
    }
  }

  lemma {:induction false} SkipRunKeepsAlnum(s: string)
    ensures AlnumOf(SkipRun(s)) == AlnumOf(s)
    decreases |s|
  {
    if s != [] && !IsLowerAlnum(s[0]) { SkipRunKeepsAlnum(s[1..]); }
  }

  /** Collapsing keeps the alphanumerics. */
  lemma {:induction false} CollapseRunsKeepsAlnum(s: string)
    ensures AlnumOf(CollapseRuns(s)) == AlnumOf(s)
    decreases |s|
  {
    if s == [] {
    } else if IsLowerAlnum(s[0]) {
      CollapseRunsKeepsAlnum(s[1..]);
      AlnumOfAppend([s[0]], CollapseRuns(s[1..]));
    } else {
      var rest := SkipRun(s);
      CollapseRunsKeepsAlnum(rest);
      AlnumOfAppend("-", CollapseRuns(rest));
      SkipRunKeepsAlnum(s);
    }
  }

  lemma {:induction false} TrimLeadingHyphensKeepsAlnum(s: string)
    ensures AlnumOf(TrimLeadingHyphens(s)) == AlnumOf(s)
    decreases |s|
  {
    if s != [] && s[0] == '-' { TrimLeadingHyphensKeepsAlnum(s[1..]); }
  }

  lemma TrimTrailingHyphensKeepsAlnum(s: string)
    ensures AlnumOf(TrimTrailingHyphens(s)) == AlnumOf(s)
  {
    var r := TrimTrailingHyphens(s);
    TrimTrailingHyphensShape(s);
    assert s == r + s[|r|..];
    AlnumOfAppend(r, s[|r|..]);
    AlnumOfNone(s[|r|..]);
  }

  lemma {:induction false} TrimStartKeepsAlnum(s: string)
    ensures AlnumOf(ToLower(TrimStart(s))) == AlnumOf(ToLower(s))
    decreases |s|
  {
    if s != [] && IsWhitespace(s[0]) {
      TrimStartKeepsAlnum(s[1..]);
    }
  }

  lemma {:induction false} TrimEndKeepsAlnum(s: string)
    ensures AlnumOf(ToLower(TrimEnd(s))) == AlnumOf(ToLower(s))
    decreases |s|
  {
    if s != [] && IsWhitespace(s[|s| - 1]) {
      var init := s[..|s| - 1];
      TrimEndKeepsAlnum(init);
      assert s == init + [s[|s| - 1]];
      ToLowerAppend(init, [s[|s| - 1]]);
      AlnumOfAppend(ToLower(init), ToLower([s[|s| - 1]]));
    }
  }

  lemma ToLowerAppend(a: string, b: string)
    ensures ToLower(a + b) == ToLower(a) + ToLower(b)
  {
    ToLowerAt(a + b);
    ToLowerAt(a);
    ToLowerAt(b);
  }

  /** Trimming whitespace and lower-casing do not change which alphanumerics survive. */
  lemma LowerTrimKeepsAlnum(value: string)
    ensures AlnumOf(ToLower(Trim(value))) == AlnumOf(ToLower(value))
  {
    TrimStartKeepsAlnum(value);
    TrimEndKeepsAlnum(TrimStart(value));
  }

  /** Stripping the hyphens at both ends of a string over `[a-z0-9-]` without `--` leaves
      either nothing or a clean segment. */
  lemma StripHyphensYieldsClean(s: string)
    requires AllSegmentChars(s) && NoDoubleHyphen(s)
    ensures var r := TrimTrailingHyphens(TrimLeadingHyphens(s)); r == [] || IsCleanSegment(r)
  {
    var lead := TrimLeadingHyphens(s);
    TrimLeadingHyphensShape(s);
    SliceKeepsSegmentShape(s, |s| - |lead|, |s|);
    var r := TrimTrailingHyphens(lead);
    TrimTrailingHyphensShape(lead);
    SliceKeepsSegmentShape(lead, 0, |r|);
    if r != [] {
      assert r[0] == lead[0];
    }
  }

  /** Every result of `sanitizeFileSegment` is a clean segment. */
  lemma SanitizeYieldsCleanSegment(value: string)
    ensures IsCleanSegment(SanitizeFileSegment(value))
  {
    var lowered := ToLower(Trim(value));
    CollapseRunsChars(lowered);
    CollapseRunsNoDoubleHyphen(lowered);
    StripHyphensYieldsClean(CollapseRuns(lowered));
    FallbackIsClean();
  }

  lemma FallbackIsClean()
    ensures IsCleanSegment(Fallback)
  {
    assert forall i :: 0 <= i < |Fallback| ==> 'a' <= Fallback[i] <= 'z';
  }

  /** A segment string with no alphanumerics is all hyphens, so stripping leaves nothing. */
  lemma {:induction false} OnlyHyphensLeft(s: string)
    requires AllSegmentChars(s)
    requires AlnumOf(s) == []
    ensures TrimLeadingHyphens(s) == []
    decreases |s|
  {
    if s != [] {
      OnlyHyphensLeft(s[1..]);
    }
  }

  /** Sanitizing keeps exactly the input's (lower-cased) alphanumerics, in order, and falls
      back to `screenshot` exactly when there are none. */
  lemma SanitizeKeepsAlnum(value: string)
    ensures AlnumOf(ToLower(value)) == [] ==> SanitizeFileSegment(value) == Fallback
    ensures AlnumOf(ToLower(value)) != [] ==> AlnumOf(SanitizeFileSegment(value)) == AlnumOf(ToLower(value))
  {
    var lowered := ToLower(Trim(value));
    var cleaned := CollapseRuns(lowered);
    CollapseRunsChars(lowered);
    CollapseRunsKeepsAlnum(lowered);
    LowerTrimKeepsAlnum(value);
    var lead := TrimLeadingHyphens(cleaned);
    TrimLeadingHyphensKeepsAlnum(cleaned);
    TrimTrailingHyphensKeepsAlnum(lead);
    if AlnumOf(ToLower(value)) == [] {
      OnlyHyphensLeft(cleaned);
    }
  }

  lemma {:induction false} CollapseRunsOfClean(s: string)
    requires AllSegmentChars(s)
    requires NoDoubleHyphen(s)
    ensures CollapseRuns(s) == s
    decreases |s|
  {
    if s != [] {
      if s[0] == '-' {
        assert SkipRun(s) == s[1..] by {
          if |s| > 1 { assert s[1] != '-'; }
        }
      }
      SliceKeepsSegmentShape(s, 1, |s|);
      CollapseRunsOfClean(s[1..]);
    }
  }

  lemma {:induction false} ToLowerOfSegment(s: string)
    requires AllSegmentChars(s)
    ensures ToLower(s) == s
  {
    ToLowerAt(s);
  }

  /** A clean segment is left alone by `sanitizeFileSegment`. */
  lemma CleanSegmentIsFixedPoint(s: string)
    requires IsCleanSegment(s)
    ensures SanitizeFileSegment(s) == s
  {
    assert !IsWhitespace(s[0]) && !IsWhitespace(s[|s| - 1]);
    assert Trim(s) == s;
    ToLowerOfSegment(s);
    CollapseRunsOfClean(s);
  }

  /** `sanitizeFileSegment` is idempotent. */
  lemma SanitizeIdempotent(value: string)
    ensures SanitizeFileSegment(SanitizeFileSegment(value)) == SanitizeFileSegment(value)
  {
    SanitizeYieldsCleanSegment(value);
    CleanSegmentIsFixedPoint(SanitizeFileSegment(value));
  }

  /** The fixed points of `sanitizeFileSegment` are exactly the clean segments. */
  lemma SanitizeFixedPointIffClean(s: string)
    ensures SanitizeFileSegment(s) == s <==> IsCleanSegment(s)
  {
    SanitizeYieldsCleanSegment(s);
    if IsCleanSegment(s) { CleanSegmentIsFixedPoint(s); }
  }

  // ---------------------------------------------------------------------------
  // The words of a label: an independent description of `sanitizeFileSegment`
  // ---------------------------------------------------------------------------

  /** A non-empty string over `[a-z0-9]`. */
  predicate IsWord(w: string) {
    w != [] && forall i :: 0 <= i < |w| ==> IsLowerAlnum(w[i])
  }

  /** A string without any character of `[a-z0-9]`. */
  predicate NoAlnum(s: string) {
    forall i :: 0 <= i < |s| ==> !IsLowerAlnum(s[i])
  }

  /** The maximal runs of `[a-z0-9]` characters of `s`, from left to right. */
  function Words(s: string): (ws: seq<string>)
    ensures forall k :: 0 <= k < |ws| ==> IsWord(ws[k])
    ensures s != [] && IsLowerAlnum(s[0]) ==> ws != [] && ws[0] != [] && ws[0][0] == s[0]
    decreases |s|
  {
    if s == [] then []
    else
      var rest := Words(s[1..]);
      if !IsLowerAlnum(s[0]) then rest
      else if |s| > 1 && IsLowerAlnum(s[1]) then [[s[0]] + rest[0]] + rest[1..]
      else [[s[0]]] + rest
  }

  /** The words, each separated from the next by one hyphen. */
  function JoinHyphen(ws: seq<string>): string {
    if ws == [] then []
    else if |ws| == 1 then ws[0]
    else ws[0] + "-" + JoinHyphen(ws[1..])
  }

  /** A gap without alphanumerics in front of `b` adds no word. */
  lemma {:induction false} WordsAfterGap(r: string, b: string)
    requires NoAlnum(r)
    ensures Words(r + b) == Words(b)
    decreases |r|
  {
    if r == [] {
      assert r + b == b;
    } else {
      assert (r + b)[0] == r[0];
      assert (r + b)[1..] == r[1..] + b;
      WordsAfterGap(r[1..], b);
    }
  }

  /** A non-empty gap without alphanumerics separates the words on its two sides. */
  lemma {:induction false} WordsSeparated(a: string, r: string, b: string)
    requires r != [] && NoAlnum(r)
    ensures Words(a + r + b) == Words(a) + Words(b)
    decreases |a|
  {
    if a == [] {
      assert a + r + b == r + b;
      WordsAfterGap(r, b);
    } else {
      var s := a + r + b;
      assert s[0] == a[0];
      assert s[1..] == a[1..] + r + b;
      WordsSeparated(a[1..], r, b);
      if IsLowerAlnum(a[0]) {
        assert s[1] == if |a| > 1 then a[1] else r[0];
        if |a| > 1 && IsLowerAlnum(a[1]) {
          var wa, wb := Words(a[1..]), Words(b);
          assert (wa + wb)[0] == wa[0];
          assert (wa + wb)[1..] == wa[1..] + wb;
        }
      }
    }
  }

  /** A gap without alphanumerics after `x` adds no word. */
  lemma WordsBeforeGap(x: string, p: string)
    requires NoAlnum(p)
    ensures Words(x + p) == Words(x)
  {
    if p == [] {
      assert x + p == x;
    } else {
      WordsSeparated(x, p, []);
      assert x + p + [] == x + p;
    }
  }

  /** A run of alphanumerics is a single word. */
  lemma {:induction false} WordsOfRun(w: string)
    requires IsWord(w)
    ensures Words(w) == [w]
    decreases |w|
  {
    if |w| > 1 {
      WordsOfRun(w[1..]);
      assert Words(w[1..])[1..] == [];
      assert [w[0]] + w[1..] == w;
    } else {
      assert w[1..] == [];
      assert [w[0]] == w;
    }
  }

  lemma {:induction false} WordsSkipRun(s: string)
    ensures Words(SkipRun(s)) == Words(s)
    decreases |s|
  {
    if s != [] && !IsLowerAlnum(s[0]) {
      WordsSkipRun(s[1..]);
    }
  }

  /** `replace(/^-+/, '')` after the collapse removes exactly the hyphen of a leading gap. */
  lemma LeadingStripOfCollapse(s: string)
    ensures TrimLeadingHyphens(CollapseRuns(s)) == CollapseRuns(SkipRun(s))
  {
    var t := SkipRun(s);
    SkipRunShape(s);
    if s != [] && !IsLowerAlnum(s[0]) {
      var x := CollapseRuns(t);
      assert CollapseRuns(s) == "-" + x;
      assert ("-" + x)[1..] == x;
    }
  }

  lemma {:induction false} TrimTrailingAppend(a: string, b: string)
    requires TrimTrailingHyphens(b) != []
    ensures TrimTrailingHyphens(a + b) == a + TrimTrailingHyphens(b)
    decreases |b|
  {
    if b[|b| - 1] == '-' {
      assert (a + b)[..|a + b| - 1] == a + b[..|b| - 1];
      TrimTrailingAppend(a, b[..|b| - 1]);
    }
  }

  lemma {:induction false} TrimTrailingAllHyphens(a: string, b: string)
    requires TrimTrailingHyphens(b) == []
    requires a == [] || a[|a| - 1] != '-'
    ensures TrimTrailingHyphens(a + b) == a
    decreases |b|
  {
    if b == [] {
      assert a + b == a;
    } else {
      assert (a + b)[..|a + b| - 1] == a + b[..|b| - 1];
      TrimTrailingAllHyphens(a, b[..|b| - 1]);
    }
  }

  /** From a string that starts with a word (or is empty), collapsing the gaps and stripping
      the trailing hyphen joins its words with single hyphens. */
  lemma {:induction false} CollapseJoinsWords(t: string)
    requires t == [] || IsLowerAlnum(t[0])
    ensures TrimTrailingHyphens(CollapseRuns(t)) == JoinHyphen(Words(t))
    decreases |t|
  {
    if t != [] {
      var c, u := t[0], t[1..];
      assert CollapseRuns(t) == [c] + CollapseRuns(u);
      if u == [] {
        assert Words(t) == [[c]];
      } else if IsLowerAlnum(u[0]) {
        var rest := Words(u);
        CollapseJoinsWords(u);
        assert JoinHyphen(rest) != [];
        TrimTrailingAppend([c], CollapseRuns(u));
        var ws := Words(t);
        assert ws == [[c] + rest[0]] + rest[1..];
        assert ws[1..] == rest[1..];
      } else {
        var v := SkipRun(u);
        SkipRunShape(u);
        WordsSkipRun(u);
        assert CollapseRuns(u) == "-" + CollapseRuns(v);
        if v == [] {
          assert CollapseRuns(t) == [c] + "-";
          TrimTrailingAllHyphens([c], "-");
          assert Words(t) == [[c]];
        } else {
          CollapseJoinsWords(v);
          assert JoinHyphen(Words(v)) != [];
          assert CollapseRuns(t) == ([c] + "-") + CollapseRuns(v);
          TrimTrailingAppend([c] + "-", CollapseRuns(v));
          assert Words(t) == [[c]] + Words(v);
          assert ([[c]] + Words(v))[1..] == Words(v);
        }
      }
    }
  }

  /** `trim()` removes a blank prefix and a blank suffix. */
  lemma TrimSplit(value: string) returns (pre: string, post: string)
    ensures value == pre + Trim(value) + post
    ensures forall i :: 0 <= i < |pre| ==> IsWhitespace(pre[i])
    ensures forall i :: 0 <= i < |post| ==> IsWhitespace(post[i])
  {
    var ts := TrimStart(value);
    TrimStartShape(value);
    TrimEndShape(ts);
    pre, post := value[..|value| - |ts|], ts[|Trim(value)|..];
    assert value == pre + ts;
    assert ts == Trim(value) + post;
  }

  lemma LowerBlanksHaveNoAlnum(s: string)
    requires forall i :: 0 <= i < |s| ==> IsWhitespace(s[i])
    ensures NoAlnum(ToLower(s))
  {
    ToLowerAt(s);
  }

  /** Trimming removes only blanks, so the words of the lower-cased label are unchanged. */
  lemma LowerTrimKeepsWords(value: string)
    ensures Words(ToLower(Trim(value))) == Words(ToLower(value))
  {
    var t := Trim(value);
    var pre, post := TrimSplit(value);
    ToLowerAppend(pre + t, post);
    ToLowerAppend(pre, t);
    LowerBlanksHaveNoAlnum(pre);
    LowerBlanksHaveNoAlnum(post);
    WordsAfterGap(ToLower(pre), ToLower(t));
    WordsBeforeGap(ToLower(pre) + ToLower(t), ToLower(post));
  }

  /** `sanitizeFileSegment` joins the words of the lower-cased label with single hyphens, and
      gives `screenshot` when there are none. */
  lemma SanitizeJoinsWords(value: string)
    ensures var ws := Words(ToLower(value));
      SanitizeFileSegment(value) == if ws == [] then Fallback else JoinHyphen(ws)
  {
    var lowered := ToLower(Trim(value));
    LeadingStripOfCollapse(lowered);
    SkipRunShape(lowered);
    CollapseJoinsWords(SkipRun(lowered));
    WordsSkipRun(lowered);
    LowerTrimKeepsWords(value);
    var ws := Words(lowered);
    if ws != [] {
      assert JoinHyphen(ws) != [];
    }
  }

  /** Two words separated by any gap without letters or digits come out joined by exactly one
      hyphen: `Hello, World` gives `hello-world`. */
  lemma TwoWordsJoined(w1: string, gap: string, w2: string)
    requires IsWord(w1) && IsWord(w2)
    requires gap != [] && NoAlnum(ToLower(gap))
    ensures SanitizeFileSegment(w1 + gap + w2) == w1 + "-" + w2
  {
    ToLowerAppend(w1 + gap, w2);
    ToLowerAppend(w1, gap);
    ToLowerOfSegment(w1);
    ToLowerOfSegment(w2);
    WordsSeparated(w1, ToLower(gap), w2);
    WordsOfRun(w1);
    WordsOfRun(w2);
    SanitizeJoinsWords(w1 + gap + w2);
    assert [w1] + [w2] == [w1, w2];
  }

  /** The slug has the instant's length; at each position a `:` or `.` has become `-` and
      every other character is unchanged. */
  lemma {:induction false} TimestampSlugAt(iso: string)
    ensures |TimestampSlug(iso)| == |iso|
    ensures forall i :: 0 <= i < |iso| ==>
      TimestampSlug(iso)[i] == (if iso[i] == ':' || iso[i] == '.' then '-' else iso[i])
    decreases |iso|
  {
    if iso != [] {
      TimestampSlugAt(iso[1..]);
      var r := TimestampSlug(iso);
      assert forall i :: 1 <= i < |iso| ==> r[i] == TimestampSlug(iso[1..])[i - 1] && iso[i] == iso[1..][i - 1];
    }
  }

  /** The slug leaves no `:` or `.` behind. */
  lemma TimestampSlugIsFileSafe(iso: string)
    ensures forall i :: 0 <= i < |TimestampSlug(iso)| ==> TimestampSlug(iso)[i] != ':' && TimestampSlug(iso)[i] != '.'
  {
    TimestampSlugAt(iso);
  }
}
