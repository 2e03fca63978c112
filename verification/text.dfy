/** The string primitives the dialogue relies on: ECMAScript whitespace, `trim`,
    `toLowerCase` (ASCII letters only), `includes`, and `split(/\s+/)` followed by
    dropping empty pieces. */
module Text {

  /** The ECMAScript WhiteSpace and LineTerminator code points: exactly what
      `String.prototype.trim` strips and what the regular expression `\s` matches. */
  predicate IsSpace(c: char) {
    || ('\t' <= c <= '\r')                 // TAB, LF, VT, FF, CR
    || c == ' ' || c == '\U{A0}' || c == '\U{1680}'
    || ('\U{2000}' <= c <= '\U{200A}')
    || c == '\U{2028}' || c == '\U{2029}' || c == '\U{202F}' || c == '\U{205F}'
    || c == '\U{3000}' || c == '\U{FEFF}'
  }

  predicate AllSpace(s: string) {
    forall i :: 0 <= i < |s| ==> IsSpace(s[i])
  }

  predicate NoSpace(s: string) {
    forall i :: 0 <= i < |s| ==> !IsSpace(s[i])
  }

  // ---------------------------------------------------------------- trim

  /** `trimStart`: drops the leading whitespace. */
  function TrimStart(s: string): string
    decreases |s|
  {
    if |s| > 0 && IsSpace(s[0]) then TrimStart(s[1..]) else s
  }

  /** The result of `TrimStart` is a suffix of `s` that does not start with
      whitespace, and what was dropped is all whitespace. */
  lemma {:induction false} TrimStartShape(s: string)
    ensures var r := TrimStart(s);
      && |r| <= |s| && r == s[|s| - |r|..]
      && AllSpace(s[..|s| - |r|])
      && (r == [] || !IsSpace(r[0]))
    decreases |s|
  {
    if |s| > 0 && IsSpace(s[0]) {
      TrimStartShape(s[1..]);
      var r := TrimStart(s);
      assert s[..|s| - |r|] == [s[0]] + s[1..][..|s| - 1 - |r|];
    }
  }

  /** `trimEnd`: drops the trailing whitespace. */
  function TrimEnd(s: string): string
    decreases |s|
  {
    if |s| > 0 && IsSpace(s[|s| - 1]) then TrimEnd(s[..|s| - 1]) else s
  }

  /** The result of `TrimEnd` is a prefix of `s` that does not end with whitespace,
      and what was dropped is all whitespace. */
  lemma {:induction false} TrimEndShape(s: string)
    ensures var r := TrimEnd(s);
      && |r| <= |s| && r == s[..|r|]
      && AllSpace(s[|r|..])
      && (r == [] || !IsSpace(r[|r| - 1]))
    decreases |s|
  {
    if |s| > 0 && IsSpace(s[|s| - 1]) {
      TrimEndShape(s[..|s| - 1]);
      var r := TrimEnd(s);
      assert s[|r|..] == s[..|s| - 1][|r|..] + [s[|s| - 1]];
    }
  }

  /** Number of whitespace characters `trim` removes from the front of `s`. */
  function LeadLen(s: string): nat
  {
    TrimStartShape(s);
    |s| - |TrimStart(s)|
  }

  /** `String.prototype.trim`. */
  function Trim(s: string): string
  {
    TrimEnd(TrimStart(s))
  }

  /** What `trim` does: `s` is some whitespace, then the result, then some whitespace,
      and the result neither starts nor ends with whitespace. */
  lemma TrimShape(s: string)
    ensures var r := Trim(s);
      && LeadLen(s) + |r| <= |s|
      && s == s[..LeadLen(s)] + r + s[LeadLen(s) + |r|..]
      && AllSpace(s[..LeadLen(s)]) && AllSpace(s[LeadLen(s) + |r|..])
      && (r == [] || (!IsSpace(r[0]) && !IsSpace(r[|r| - 1])))
  {
    TrimStartShape(s);
    TrimEndShape(TrimStart(s));
    TrimParts(s, LeadLen(s), TrimStart(s), Trim(s));
  }

  lemma TrimParts(s: string, lead: nat, t: string, r: string)
    requires lead <= |s| && t == s[lead..] && |r| <= |t| && r == t[..|r|]
    ensures lead + |r| <= |s|
    ensures s == s[..lead] + r + s[lead + |r|..]
    ensures s[lead + |r|..] == t[|r|..]
  {
    assert s == s[..lead] + t;
    assert t == r + t[|r|..];
  }

  /** Trimming twice is trimming once. */
  lemma TrimIdempotent(s: string)
    ensures Trim(Trim(s)) == Trim(s)
  {
    TrimShape(s);
  }

  // ---------------------------------------------------------------- lower case

  /** `toLowerCase` on one character; only the ASCII letters A-Z have a case here. */
  function LowerChar(c: char): char
  {
    if 'A' <= c <= 'Z' then (c as int + 32) as char else c
  }

  /** `String.prototype.toLowerCase`, character by character. */
  function Lower(s: string): string
  {
    if s == [] then [] else [LowerChar(s[0])] + Lower(s[1..])
  }

  /** Lower-casing keeps the length and lower-cases each character in place. */
  lemma {:induction false} LowerShape(s: string)
    ensures |Lower(s)| == |s|
    ensures forall i :: 0 <= i < |s| ==> Lower(s)[i] == LowerChar(s[i])
  {
    if s != [] {
      LowerShape(s[1..]);
    }
  }

  /** A text without ASCII capitals is its own lower case. */
  lemma LowerWithoutCapitals(s: string)
    requires forall i :: 0 <= i < |s| ==> !('A' <= s[i] <= 'Z')
    ensures Lower(s) == s
  {
    LowerShape(s);
  }

  /** Lower-casing commutes with concatenation. */
  lemma LowerAppend(a: string, b: string)
    ensures Lower(a + b) == Lower(a) + Lower(b)
  {
    LowerShape(a + b);
    LowerShape(a);
    LowerShape(b);
    assert forall i :: 0 <= i < |a + b| ==> Lower(a + b)[i] == (Lower(a) + Lower(b))[i];
  }

  /** Lower-casing is idempotent and never creates or removes whitespace. */
  lemma LowerIdempotent(s: string)
    ensures Lower(Lower(s)) == Lower(s)
    ensures |Lower(s)| == |s|
    ensures forall i :: 0 <= i < |s| ==> (IsSpace(Lower(s)[i]) <==> IsSpace(s[i]))
  {
    LowerShape(s);
    LowerShape(Lower(s));
  }

  /** `normalize` of the dialogue: trim, then lower-case. */
  function Normalize(s: string): string
  {
    Lower(Trim(s))
  }

  /** A normalized text is no longer than the original and neither starts nor ends
      with whitespace. */
  lemma NormalizeShape(s: string)
    ensures var r := Normalize(s);
      |r| <= |s| && (r == [] || (!IsSpace(r[0]) && !IsSpace(r[|r| - 1])))
  {
    var t := Trim(s);
    TrimShape(s);
    LowerIdempotent(t);
    if t != [] {
      assert !IsSpace(t[0]) && !IsSpace(t[|t| - 1]);
    }
  }

  /** Normalizing an already normalized text changes nothing. */
  lemma NormalizeIdempotent(s: string)
    ensures Normalize(Normalize(s)) == Normalize(s)
  {
    var n := Normalize(s);
    NormalizeShape(s);
    LowerIdempotent(Trim(s));
    assert TrimStart(n) == n;
    assert TrimEnd(n) == n;
  }

  // ---------------------------------------------------------------- includes

  /** `needle` occurs in `hay` starting at index `i`. */
  predicate OccursAt(needle: string, hay: string, i: int)
  {
    0 <= i <= |hay| - |needle| && hay[i..i + |needle|] == needle
  }

  ghost predicate IsSubstring(needle: string, hay: string)
  {
    exists i :: OccursAt(needle, hay, i)
  }

  /** An occurrence past index 0 is an occurrence in the tail, and back. */
  lemma OccursShift(needle: string, hay: string, i: int)
    requires |hay| > 0 && 0 <= i
    ensures OccursAt(needle, hay, i + 1) <==> OccursAt(needle, hay[1..], i)
  {
    if 0 <= i <= |hay| - 1 - |needle| {
      assert hay[1..][i..i + |needle|] == hay[i + 1..i + 1 + |needle|];
    }
  }

  /** `String.prototype.includes`: scans the start positions of `hay` from left to right. */
  function Contains(hay: string, needle: string): bool
    decreases |hay|
  {
    if needle <= hay then true
    else if |hay| <= |needle| then false
    else Contains(hay[1..], needle)
  }

  /** `includes` answers exactly whether `needle` occurs somewhere in `hay`. */
  lemma {:induction false} ContainsMeansSubstring(hay: string, needle: string)
    ensures Contains(hay, needle) <==> IsSubstring(needle, hay)
    decreases |hay|
  {
    if needle <= hay {
      assert OccursAt(needle, hay, 0);
    } else if |hay| <= |needle| {
      assert forall i :: !OccursAt(needle, hay, i);
    } else {
      ContainsMeansSubstring(hay[1..], needle);
      if Contains(hay, needle) {
        var i :| OccursAt(needle, hay[1..], i);
        OccursShift(needle, hay, i);
      }
      if IsSubstring(needle, hay) {
        var i :| OccursAt(needle, hay, i);
        assert i != 0;
        OccursShift(needle, hay, i - 1);
      }
    }
  }

  /** Whatever occurs in `m` occurs in every text that contains `m`. */
  lemma SubstringOfSuperstring(needle: string, m: string, p: string, q: string)
    requires IsSubstring(needle, m)
    ensures IsSubstring(needle, p + m + q)
  {
    var i :| OccursAt(needle, m, i);
    assert (p + m + q)[|p| + i..|p| + i + |needle|] == m[i..i + |needle|];
    assert OccursAt(needle, p + m + q, |p| + i);
  }

  /** A needle holding a character that `hay` lacks does not occur in `hay`. */
  lemma MissingCharNotSubstring(needle: string, hay: string, k: int)
    requires 0 <= k < |needle|
    requires forall j :: 0 <= j < |hay| ==> hay[j] != needle[k]
    ensures !IsSubstring(needle, hay)
  {
    forall i | 0 <= i <= |hay| - |needle|
      ensures !OccursAt(needle, hay, i)
    {
      assert hay[i..i + |needle|][k] == hay[i + k];
    }
  }

  // ---------------------------------------------------------------- split

  /** Length of the longest prefix of `s` free of whitespace. */
  function WordLen(s: string): nat
  {
    if |s| == 0 || IsSpace(s[0]) then 0 else 1 + WordLen(s[1..])
  }

  lemma {:induction false} WordLenShape(s: string)
    ensures var n := WordLen(s); n <= |s| && NoSpace(s[..n]) && (n < |s| ==> IsSpace(s[n]))
  {
    if |s| > 0 && !IsSpace(s[0]) {
      WordLenShape(s[1..]);
      assert s[..WordLen(s)] == [s[0]] + s[1..][..WordLen(s[1..])];
    }
  }

  /** Length of the longest prefix of `s` made of whitespace. */
  function GapLen(s: string): nat
  {
    if |s| == 0 || !IsSpace(s[0]) then 0 else 1 + GapLen(s[1..])
  }

  lemma {:induction false} GapLenShape(s: string)
    ensures var n := GapLen(s); n <= |s| && AllSpace(s[..n]) && (n < |s| ==> !IsSpace(s[n]))
  {
    if |s| > 0 && IsSpace(s[0]) {
      GapLenShape(s[1..]);
      assert s[..GapLen(s)] == [s[0]] + s[1..][..GapLen(s[1..])];
    }
  }

  /** All characters of `s` that are not whitespace, in order. */
  function Squeeze(s: string): string
  {
    if s == [] then [] else (if IsSpace(s[0]) then [] else [s[0]]) + Squeeze(s[1..])
  }

  function Concat(parts: seq<string>): string
  {
    if parts == [] then [] else parts[0] + Concat(parts[1..])
  }

  lemma SqueezeAppend(a: string, b: string)
    ensures Squeeze(a + b) == Squeeze(a) + Squeeze(b)
  {
    if a != [] {
      assert (a + b)[1..] == a[1..] + b;
      SqueezeAppend(a[1..], b);
    } else {
      assert a + b == b;
    }
  }

  lemma SqueezeNoSpace(w: string)
    requires NoSpace(w)
    ensures Squeeze(w) == w
  {
    if w != [] {
      SqueezeNoSpace(w[1..]);
    }
  }

  lemma SqueezeAllSpace(w: string)
    requires AllSpace(w)
    ensures Squeeze(w) == []
  {
    if w != [] {
      SqueezeAllSpace(w[1..]);
    }
  }

  /** Squeezing a text that starts with a word and a gap keeps the word and drops the gap. */
  lemma SqueezeAroundGap(s: string, n: nat, m: nat)
    requires n + m <= |s| && NoSpace(s[..n]) && AllSpace(s[n..][..m])
    ensures Squeeze(s) == s[..n] + Squeeze(s[n + m..])
  {
    var word, gap, rest := s[..n], s[n..][..m], s[n + m..];
    assert s == word + gap + rest;
    SqueezeAppend(word + gap, rest);
    SqueezeAppend(word, gap);
    SqueezeNoSpace(word);
    SqueezeAllSpace(gap);
  }

  /** `s.split(/\s+/)`: the pieces between maximal whitespace runs, including the
      empty piece before leading or after trailing whitespace; `""` splits into `[""]`. */
  function SplitOnSpaceRuns(s: string): seq<string>
    decreases |s|
  {
    var n := WordLen(s);
    WordLenShape(s);
    if n == |s| then [s]
    else
      var m := GapLen(s[n..]);
      GapLenShape(s[n..]);
      [s[..n]] + SplitOnSpaceRuns(s[n + m..])
  }

  /** Where `split(/\s+/)` cuts: `s` is the pieces woven with the runs `gaps`, with
      nothing before the first piece or after the last, a non-empty whitespace run
      between two pieces, and pieces free of whitespace. Only the first and last
      pieces may be empty (before leading or after trailing whitespace), so every
      run between pieces is a maximal one. */
  predicate SplitCuts(gaps: seq<string>, parts: seq<string>)
  {
    && |gaps| == |parts| + 1
    && gaps[0] == [] && gaps[|parts|] == []
    && (forall i :: 0 < i < |parts| ==> gaps[i] != [] && AllSpace(gaps[i]))
    && (forall k :: 0 <= k < |parts| ==> NoSpace(parts[k]))
    && (forall k :: 0 < k < |parts| - 1 ==> parts[k] != [])
  }

  /** A piece and a non-empty whitespace run put in front of the cuts of `rest`. */
  lemma SplitConsPiece(w: string, g: string, gaps: seq<string>, parts: seq<string>)
    returns (gaps': seq<string>)
    requires NoSpace(w) && AllSpace(g) && g != []
    requires SplitCuts(gaps, parts) && parts != [] && (|parts| >= 2 ==> parts[0] != [])
    ensures SplitCuts(gaps', [w] + parts)
    ensures Weave(gaps', [w] + parts) == w + (g + Weave(gaps, parts))
  {
    var parts' := [w] + parts;
    gaps' := [[], g] + gaps[1..];
    assert parts'[1..] == parts;
    assert g + gaps[0] == g;
    assert gaps'[1..] == [g + gaps[0]] + gaps[1..];
    WeavePrepend(g, gaps, parts);
    forall i | 2 <= i < |gaps'|
      ensures gaps'[i] == gaps[i - 1]
    {
    }
    forall k | 1 <= k < |parts'|
      ensures parts'[k] == parts[k - 1]
    {
    }
  }

  /** A text without whitespace splits into itself, with empty runs on both sides. */
  lemma SplitWovenWord(s: string) returns (gaps: seq<string>)
    requires NoSpace(s) && SplitOnSpaceRuns(s) == [s]
    ensures SplitCuts(gaps, [s]) && Weave(gaps, [s]) == s
  {
    gaps := [[], []];
    assert Weave(gaps, [s]) == [] + s + Weave([[]], []);
  }

  /** One step of the split: the first piece, the run after it, and the rest. */
  lemma SplitStep(s: string) returns (n: nat, m: nat)
    requires WordLen(s) < |s|
    ensures n == WordLen(s) && 0 < m && n + m <= |s|
    ensures NoSpace(s[..n]) && AllSpace(s[n..][..m])
    ensures m == GapLen(s[n..])
    ensures s == s[..n] + (s[n..][..m] + s[n + m..])
    ensures s[n + m..] != [] ==> !IsSpace(s[n + m..][0])
    ensures !IsSpace(s[0]) ==> n > 0
  {
    n := WordLen(s);
    WordLenShape(s);
    m := GapLen(s[n..]);
    GapLenShape(s[n..]);
    assert s[n..][0] == s[n];
    assert s[n..][..m] + s[n + m..] == s[n..];
    if n + m < |s| {
      assert s[n + m..][0] == s[n..][m];
    }
  }

  /** The split of a text with whitespace is its first piece, then the split of what
      follows the first whitespace run. */
  lemma SplitUnfolds(s: string, n: nat, m: nat)
    requires n == WordLen(s) < |s| && m == GapLen(s[n..]) && n + m <= |s|
    ensures SplitOnSpaceRuns(s) == [s[..n]] + SplitOnSpaceRuns(s[n + m..])
  {
  }

  /** A split always has a piece, and the empty text splits into one empty piece. */
  lemma SplitNonEmpty(s: string)
    ensures SplitOnSpaceRuns(s) != []
    ensures s == [] ==> SplitOnSpaceRuns(s) == [[]]
  {
  }

  /** The cuts `split(/\s+/)` makes in `s`; a text starting with a word has a
      non-empty first piece. */
  lemma {:induction false} SplitWoven(s: string) returns (gaps: seq<string>)
    ensures SplitCuts(gaps, SplitOnSpaceRuns(s)) && Weave(gaps, SplitOnSpaceRuns(s)) == s
    ensures s != [] && !IsSpace(s[0]) ==> SplitOnSpaceRuns(s)[0] != []
    decreases |s|
  {
    WordLenShape(s);
    if WordLen(s) == |s| {
      assert s[..WordLen(s)] == s;
      gaps := SplitWovenWord(s);
    } else {
      var n, m := SplitStep(s);
      SplitUnfolds(s, n, m);
      var w, g, rest := s[..n], s[n..][..m], s[n + m..];
      var restParts := SplitOnSpaceRuns(rest);
      var restGaps := SplitWoven(rest);
      SplitNonEmpty(rest);
      gaps := SplitConsPiece(w, g, restGaps, restParts);
    }
  }

  /** The split yields at least one piece; the pieces hold no whitespace and, put
      together, hold every other character of `s` in order. */
  lemma {:induction false} SplitShape(s: string)
    ensures var parts := SplitOnSpaceRuns(s);
      && |parts| >= 1
      && (forall k :: 0 <= k < |parts| ==> NoSpace(parts[k]))
      && Concat(parts) == Squeeze(s)
      && (exists gaps :: SplitCuts(gaps, parts) && Weave(gaps, parts) == s)
    decreases |s|
  {
    var gaps := SplitWoven(s);
    SplitNonEmpty(s);
    WordLenShape(s);
    if WordLen(s) == |s| {
      assert s[..WordLen(s)] == s;
      SqueezeNoSpace(s);
    } else {
      var n, m := SplitStep(s);
      SplitUnfolds(s, n, m);
      SqueezeAroundGap(s, n, m);
      SplitShape(s[n + m..]);
      var rest := SplitOnSpaceRuns(s[n + m..]);
      assert Concat([s[..n]] + rest) == s[..n] + Concat(rest) by {
        assert ([s[..n]] + rest)[1..] == rest;
      }
    }
  }

  /** `.filter(Boolean)` on a list of strings: keeps the non-empty ones, in order. */
  function NonEmptyParts(parts: seq<string>): seq<string>
  {
    if parts == [] then []
    else if parts[0] == [] then NonEmptyParts(parts[1..])
    else [parts[0]] + NonEmptyParts(parts[1..])
  }

  /** The kept pieces are non-empty pieces of the list, and nothing is lost when
      they are put together. */
  lemma {:induction false} NonEmptyPartsShape(parts: seq<string>)
    ensures var r := NonEmptyParts(parts);
      && |r| <= |parts|
      && (forall k :: 0 <= k < |r| ==> r[k] != [] && r[k] in parts)
      && Concat(r) == Concat(parts)
  {
    if parts != [] {
      NonEmptyPartsShape(parts[1..]);
      var rest := NonEmptyParts(parts[1..]);
      if parts[0] != [] {
        assert ([parts[0]] + rest)[1..] == rest;
      }
    }
  }

  // ---------------------------------------------------------------- word count

  /** Counts the word starts of `s`: the non-whitespace characters that come
      right after whitespace, or first when `afterSpace` holds. */
  function CountWordStarts(s: string, afterSpace: bool): nat
  {
    if s == [] then 0
    else (if afterSpace && !IsSpace(s[0]) then 1 else 0) + CountWordStarts(s[1..], IsSpace(s[0]))
  }

  /** Number of maximal whitespace-free runs of `s`. */
  function WordCount(s: string): nat
  {
    CountWordStarts(s, true)
  }

  lemma {:induction false} CountWordStartsAppend(a: string, b: string, afterSpace: bool)
    ensures CountWordStarts(a + b, afterSpace)
         == CountWordStarts(a, afterSpace)
          + CountWordStarts(b, if a == [] then afterSpace else IsSpace(a[|a| - 1]))
    decreases |a|
  {
    if a != [] {
      assert (a + b)[1..] == a[1..] + b;
      CountWordStartsAppend(a[1..], b, IsSpace(a[0]));
    } else {
      assert a + b == b;
    }
  }

  lemma {:induction false} CountWordStartsAllSpace(w: string, afterSpace: bool)
    requires AllSpace(w)
    ensures CountWordStarts(w, afterSpace) == 0
    decreases |w|
  {
    if w != [] {
      CountWordStartsAllSpace(w[1..], IsSpace(w[0]));
    }
  }

  lemma {:induction false} CountWordStartsNoSpace(w: string, afterSpace: bool)
    requires NoSpace(w)
    ensures CountWordStarts(w, afterSpace) == if w != [] && afterSpace then 1 else 0
    decreases |w|
  {
    if w != [] {
      CountWordStartsNoSpace(w[1..], false);
    }
  }

  /** `filter(Boolean)` keeps nothing of the empty list, drops an empty piece, keeps
      a non-empty one, and works piece by piece over a concatenation. Together these
      fix its result on every list. */
  lemma {:induction false} NonEmptyPartsLaws(x: string, a: seq<string>, b: seq<string>)
    ensures NonEmptyParts([]) == []
    ensures NonEmptyParts([x]) == if x == [] then [] else [x]
    ensures NonEmptyParts(a + b) == NonEmptyParts(a) + NonEmptyParts(b)
  {
    assert [x][1..] == [];
    NonEmptyPartsAppend(a, b);
  }

  lemma NonEmptyPartsAppend(a: seq<string>, b: seq<string>)
    ensures NonEmptyParts(a + b) == NonEmptyParts(a) + NonEmptyParts(b)
  {
    if a != [] {
      assert (a + b)[1..] == a[1..] + b;
      NonEmptyPartsAppend(a[1..], b);
    } else {
      assert a + b == b;
    }
  }

  /** A leading word followed by a non-empty gap contributes one word when non-empty. */
  lemma WordCountAroundGap(s: string, n: nat, m: nat)
    requires 0 < m && n + m <= |s| && NoSpace(s[..n]) && AllSpace(s[n..][..m])
    ensures WordCount(s) == (if n > 0 then 1 else 0) + WordCount(s[n + m..])
  {
    var word, gap, rest := s[..n], s[n..][..m], s[n + m..];
    assert s == (word + gap) + rest;
    assert IsSpace((word + gap)[|word + gap| - 1]);
    CountWordStartsAppend(word + gap, rest, true);
    CountWordStartsAppend(word, gap, true);
    CountWordStartsNoSpace(word, true);
    CountWordStartsAllSpace(gap, if word == [] then true else IsSpace(word[|word| - 1]));
  }

  /** The pipeline `split(/\s+/).filter(Boolean)` yields exactly one piece per
      maximal whitespace-free run of `s`. */
  lemma {:induction false} SplitCountsWords(s: string)
    ensures |NonEmptyParts(SplitOnSpaceRuns(s))| == WordCount(s)
    decreases |s|
  {
    var n := WordLen(s);
    WordLenShape(s);
    if n == |s| {
      CountWordStartsNoSpace(s, true);
    } else {
      var m := GapLen(s[n..]);
      GapLenShape(s[n..]);
      var rest := SplitOnSpaceRuns(s[n + m..]);
      assert SplitOnSpaceRuns(s) == [s[..n]] + rest;
      WordCountAroundGap(s, n, m);
      SplitCountsWords(s[n + m..]);
      NonEmptyPartsAppend([s[..n]], rest);
      assert |NonEmptyParts([s[..n]])| == if n > 0 then 1 else 0;
    }
  }

  /** Trimming never changes the number of words. */
  lemma TrimKeepsWordCount(s: string)
    ensures WordCount(Trim(s)) == WordCount(s)
  {
    TrimShape(s);
    var lead, t := s[..LeadLen(s)], Trim(s);
    var trail := s[LeadLen(s) + |t|..];
    CountWordStartsAppend(lead + t, trail, true);
    CountWordStartsAppend(lead, t, true);
    CountWordStartsAllSpace(lead, true);
    CountWordStartsAllSpace(trail, if lead + t == [] then true else IsSpace((lead + t)[|lead + t| - 1]));
  }

  // ---------------------------------------------------------------- words

  /** `gaps[0] + parts[0] + gaps[1] + ... + parts[n - 1] + gaps[n]`. */
  function Weave(gaps: seq<string>, parts: seq<string>): string
    requires |gaps| == |parts| + 1
    decreases |parts|
  {
    if parts == [] then gaps[0] else gaps[0] + parts[0] + Weave(gaps[1..], parts[1..])
  }

  /** The gaps are whitespace and those between two words are non-empty; the words
      are non-empty and free of whitespace. Woven together, each word is then a
      maximal whitespace-free run of the text. */
  predicate WordLayout(gaps: seq<string>, parts: seq<string>)
  {
    && |gaps| == |parts| + 1
    && (forall i :: 0 <= i < |gaps| ==> AllSpace(gaps[i]))
    && (forall i :: 0 < i < |parts| ==> gaps[i] != [])
    && (forall k :: 0 <= k < |parts| ==> parts[k] != [] && NoSpace(parts[k]))
  }

  /** `parts` are the whitespace-separated words of `s`, in order. */
  ghost predicate AreWordsOf(parts: seq<string>, s: string)
  {
    exists gaps :: WordLayout(gaps, parts) && Weave(gaps, parts) == s
  }

  /** Whitespace put in front of a text goes into its first gap. */
  lemma WeavePrepend(x: string, gaps: seq<string>, parts: seq<string>)
    requires |gaps| == |parts| + 1
    ensures Weave([x + gaps[0]] + gaps[1..], parts) == x + Weave(gaps, parts)
  {
    var g := [x + gaps[0]] + gaps[1..];
    if parts != [] {
      assert g[1..] == gaps[1..];
    }
  }

  /** Whitespace put after a text goes into its last gap. */
  lemma {:induction false} WeaveAppend(gaps: seq<string>, parts: seq<string>, y: string)
    requires |gaps| == |parts| + 1
    ensures Weave(gaps[..|parts|] + [gaps[|parts|] + y], parts) == Weave(gaps, parts) + y
    decreases |parts|
  {
    var g := gaps[..|parts|] + [gaps[|parts|] + y];
    if parts == [] {
      assert g == [gaps[0] + y];
    } else {
      var tail, tail' := Weave(gaps[1..], parts[1..]), Weave(g[1..], parts[1..]);
      WeaveAppend(gaps[1..], parts[1..], y);
      assert g[1..] == gaps[1..][..|parts| - 1] + [gaps[1..][|parts| - 1] + y];
      assert tail' == tail + y;
      assert g[0] == gaps[0];
      assert Weave(g, parts) == gaps[0] + parts[0] + tail';
      assert Weave(gaps, parts) == gaps[0] + parts[0] + tail;
    }
  }

  /** A word and a non-empty whitespace run put in front of a layout whose first
      gap is empty. */
  lemma LayoutConsWord(w: string, g: string, gaps: seq<string>, parts: seq<string>)
    returns (gaps': seq<string>)
    requires NoSpace(w) && w != [] && AllSpace(g) && g != []
    requires WordLayout(gaps, parts) && gaps[0] == []
    ensures WordLayout(gaps', [w] + parts)
    ensures Weave(gaps', [w] + parts) == w + g + Weave(gaps, parts)
    ensures gaps'[0] == []
  {
    var parts' := [w] + parts;
    gaps' := [[], g] + gaps[1..];
    assert parts'[1..] == parts;
    assert g + gaps[0] == g;
    assert gaps'[1..] == [g + gaps[0]] + gaps[1..];
    WeavePrepend(g, gaps, parts);
    forall i | 0 <= i < |gaps'|
      ensures AllSpace(gaps'[i])
    {
      if i >= 2 {
        assert gaps'[i] == gaps[i - 1];
      }
    }
    forall i | 0 < i < |parts'|
      ensures gaps'[i] != []
    {
      if i >= 2 {
        assert gaps'[i] == gaps[i - 1];
      }
    }
    forall k | 0 <= k < |parts'|
      ensures parts'[k] != [] && NoSpace(parts'[k])
    {
      if k >= 1 {
        assert parts'[k] == parts[k - 1];
      }
    }
  }

  /** A non-empty whitespace run put in front of a layout goes into its first gap. */
  lemma LayoutConsGap(g: string, gaps: seq<string>, parts: seq<string>)
    returns (gaps': seq<string>)
    requires AllSpace(g) && WordLayout(gaps, parts) && gaps[0] == []
    ensures WordLayout(gaps', parts)
    ensures Weave(gaps', parts) == g + Weave(gaps, parts)
  {
    assert g + gaps[0] == g;
    gaps' := [g] + gaps[1..];
    WeavePrepend(g, gaps, parts);
    forall i | 0 < i < |gaps'|
      ensures gaps'[i] == gaps[i]
    {
    }
  }

  /** The pieces `split(/\s+/).filter(Boolean)` keeps, with the whitespace runs
      around them, make up `s`; the first run is empty when `s` starts with a word. */
  lemma {:induction false} SplitLayout(s: string) returns (gaps: seq<string>)
    ensures WordLayout(gaps, NonEmptyParts(SplitOnSpaceRuns(s)))
    ensures Weave(gaps, NonEmptyParts(SplitOnSpaceRuns(s))) == s
    ensures s == [] || !IsSpace(s[0]) ==> gaps[0] == []
    decreases |s|
  {
    var n := WordLen(s);
    WordLenShape(s);
    if n == |s| {
      if s == [] {
        gaps := [[]];
      } else {
        assert NonEmptyParts(SplitOnSpaceRuns(s)) == [s] by {
          assert NonEmptyParts([s]) == [s] + NonEmptyParts([]);
        }
        gaps := [[], []];
        assert Weave(gaps, [s]) == [] + s + Weave([[]], []);
      }
    } else {
      var m := GapLen(s[n..]);
      GapLenShape(s[n..]);
      var w, g, rest := s[..n], s[n..][..m], s[n + m..];
      assert s == w + g + rest;
      var restGaps := SplitLayout(rest);
      var restParts := NonEmptyParts(SplitOnSpaceRuns(rest));
      assert SplitOnSpaceRuns(s) == [w] + SplitOnSpaceRuns(rest);
      NonEmptyPartsAppend([w], SplitOnSpaceRuns(rest));
      if w != [] {
        assert NonEmptyParts([w]) == [w];
        gaps := LayoutConsWord(w, g, restGaps, restParts);
      } else {
        assert NonEmptyParts([w]) == [];
        assert s == g + rest;
        gaps := LayoutConsGap(g, restGaps, restParts);
      }
    }
  }

  /** The whitespace `trim` removes goes into the first and last gaps, so a text
      has the words of its trimmed form. */
  lemma TrimKeepsWords(parts: seq<string>, s: string)
    requires AreWordsOf(parts, Trim(s))
    ensures AreWordsOf(parts, s)
  {
    var gaps :| WordLayout(gaps, parts) && Weave(gaps, parts) == Trim(s);
    TrimShape(s);
    var t := Trim(s);
    var lead, trail := s[..LeadLen(s)], s[LeadLen(s) + |t|..];
    WeavePrepend(lead, gaps, parts);
    var front := [lead + gaps[0]] + gaps[1..];
    WeaveAppend(front, parts, trail);
    var both := front[..|parts|] + [front[|parts|] + trail];
    assert Weave(both, parts) == s;
    forall i | 0 <= i < |both|
      ensures AllSpace(both[i])
    {
      if i > 0 && i < |parts| {
        assert both[i] == gaps[i];
      }
    }
    forall i | 0 < i < |parts|
      ensures both[i] != []
    {
      assert both[i] == gaps[i];
    }
    assert WordLayout(both, parts);
  }

  /** A whitespace run followed by a word, or by nothing, is a maximal run. */
  lemma {:induction false} GapLenOf(x: string, y: string)
    requires AllSpace(x) && (y == [] || !IsSpace(y[0]))
    ensures GapLen(x + y) == |x|
    decreases |x|
  {
    if x != [] {
      assert (x + y)[1..] == x[1..] + y;
      GapLenOf(x[1..], y);
    } else {
      assert x + y == y;
    }
  }

  /** A word followed by whitespace, or by nothing, is a maximal run. */
  lemma {:induction false} WordLenOf(x: string, y: string)
    requires NoSpace(x) && (y == [] || IsSpace(y[0]))
    ensures WordLen(x + y) == |x|
    decreases |x|
  {
    if x != [] {
      assert (x + y)[1..] == x[1..] + y;
      WordLenOf(x[1..], y);
    } else {
      assert x + y == y;
    }
  }

  /** A layout is its first gap, its first word, and a tail that is empty or starts
      with whitespace. */
  lemma LayoutSplitsHead(gaps: seq<string>, parts: seq<string>)
    requires WordLayout(gaps, parts) && parts != []
    ensures var tail := Weave(gaps[1..], parts[1..]);
      && Weave(gaps, parts) == gaps[0] + (parts[0] + tail)
      && (tail == [] || IsSpace(tail[0]))
  {
    var tail := Weave(gaps[1..], parts[1..]);
    if |parts| > 1 {
      assert tail == gaps[1] + parts[1] + Weave(gaps[2..], parts[2..]) by {
        assert gaps[1..][1..] == gaps[2..];
      }
      assert gaps[1] != [];
      assert tail[0] == gaps[1][0];
    }
  }

  /** In any word layout, the first gap and the first word are the maximal runs
      the text starts with. */
  lemma LayoutHead(gaps: seq<string>, parts: seq<string>)
    requires WordLayout(gaps, parts) && parts != []
    ensures var s := Weave(gaps, parts);
      && GapLen(s) == |gaps[0]| && |gaps[0]| <= |s|
      && WordLen(s[|gaps[0]|..]) == |parts[0]|
      && s[|gaps[0]|..][..|parts[0]|] == parts[0]
      && s[|gaps[0]| + |parts[0]|..] == Weave(gaps[1..], parts[1..])
  {
    var s := Weave(gaps, parts);
    var tail := Weave(gaps[1..], parts[1..]);
    LayoutSplitsHead(gaps, parts);
    var word := parts[0] + tail;
    GapLenOf(gaps[0], word);
    assert s[|gaps[0]|..] == word;
    WordLenOf(parts[0], tail);
    assert word[..|parts[0]|] == parts[0];
    assert word[|parts[0]|..] == tail;
  }

  /** A text has one way only to be laid out as words between whitespace runs: the
      words of a text are determined by the text. */
  lemma {:induction false} WordsAreUnique(p: seq<string>, q: seq<string>, s: string)
    requires AreWordsOf(p, s) && AreWordsOf(q, s)
    ensures p == q
    decreases |p|
  {
    var a :| WordLayout(a, p) && Weave(a, p) == s;
    var b :| WordLayout(b, q) && Weave(b, q) == s;
    if p == [] || q == [] {
      if p != [] {
        LayoutHasNoWords(b, q, a, p);
      } else if q != [] {
        LayoutHasNoWords(a, p, b, q);
      }
    } else {
      LayoutHead(a, p);
      LayoutHead(b, q);
      var rest := s[|a[0]| + |p[0]|..];
      LayoutTail(a, p);
      LayoutTail(b, q);
      WordsAreUnique(p[1..], q[1..], rest);
      assert p == [p[0]] + p[1..] && q == [q[0]] + q[1..];
    }
  }

  /** A text with no words has no layout with a word in it. */
  lemma LayoutHasNoWords(a: seq<string>, p: seq<string>, b: seq<string>, q: seq<string>)
    requires WordLayout(a, p) && p == [] && WordLayout(b, q) && q != []
    ensures Weave(a, p) != Weave(b, q)
  {
    LayoutHead(b, q);
    var s := Weave(b, q);
    var i := |b[0]|;
    assert s[i..][..|q[0]|] == q[0];
    assert s[i] == q[0][0];
    assert !IsSpace(s[i]);
    assert AllSpace(a[0]);
  }

  /** What follows the first word of a layout is laid out by the remaining gaps. */
  lemma LayoutTail(gaps: seq<string>, parts: seq<string>)
    requires WordLayout(gaps, parts) && parts != []
    ensures WordLayout(gaps[1..], parts[1..])
    ensures AreWordsOf(parts[1..], Weave(gaps[1..], parts[1..]))
  {
  }

  /** A text made only of whitespace has no words. */
  lemma AllSpaceHasNoWords(s: string)
    requires AllSpace(s)
    ensures WordCount(s) == 0
  {
    CountWordStartsAllSpace(s, true);
  }
}
