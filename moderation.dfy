/** The pure text classifiers of the moderation helpers: message
    normalisation and its fingerprint, link, Arabic-script and advertising
    detection, and the channel-post test. */
module Moderation {
  import opened Common
  import opened Text

  // ------------------------------------------------------- whitespace runs

  /** `re.sub(r"\s+", " ", s)`: every run of whitespace becomes one space. */
  function Collapse(s: string): (r: string)
    ensures s == [] <==> r == []
    ensures s != [] && !IsSpace(s[0]) ==> r[0] == s[0]
    ensures s != [] && IsSpace(s[0]) ==> r[0] == ' '
    decreases |s|
  {
    if s == [] then []
    else if IsSpace(s[0]) then [' '] + Collapse(StripLeft(s))
    else [s[0]] + Collapse(s[1..])
  }

  /** Whitespace is single plain spaces only. */
  predicate SingleSpaced(s: string) {
    && (forall i :: 0 <= i < |s| && IsSpace(s[i]) ==> s[i] == ' ')
    && (forall i :: 0 <= i < |s| - 1 ==> !(s[i] == ' ' && s[i + 1] == ' '))
  }

  function NonSpace(s: string): string {
    if s == [] then [] else (if IsSpace(s[0]) then [] else [s[0]]) + NonSpace(s[1..])
  }

  lemma {:induction false} NonSpaceOfSpaces(s: string)
    requires forall i :: 0 <= i < |s| ==> IsSpace(s[i])
    ensures NonSpace(s) == []
    decreases |s|
  {
    if s != [] {
      NonSpaceOfSpaces(s[1..]);
    }
  }

  lemma {:induction false} NonSpaceAppend(a: string, b: string)
    ensures NonSpace(a + b) == NonSpace(a) + NonSpace(b)
    decreases |a|
  {
    if a != [] {
      var h := if IsSpace(a[0]) then [] else [a[0]];
      assert (a + b)[0] == a[0];
      assert (a + b)[1..] == a[1..] + b;
      NonSpaceAppend(a[1..], b);
      assert NonSpace(a + b) == h + (NonSpace(a[1..]) + NonSpace(b));
    } else {
      assert a + b == b;
    }
  }

  /** Collapsing whitespace leaves single plain spaces only. */
  lemma {:induction false} CollapseSingleSpaced(s: string)
    ensures SingleSpaced(Collapse(s))
    decreases |s|
  {
    if s != [] {
      var r := Collapse(s);
      var t := if IsSpace(s[0]) then StripLeft(s) else s[1..];
      CollapseSingleSpaced(t);
      var c := Collapse(t);
      assert r == [r[0]] + c;
      forall i | 0 <= i < |r| ensures IsSpace(r[i]) ==> r[i] == ' ' {
        if i > 0 {
          assert r[i] == c[i - 1];
        }
      }
      forall i | 0 <= i < |r| - 1 ensures !(r[i] == ' ' && r[i + 1] == ' ') {
        if i == 0 {
          assert r[1] == c[0];
        } else {
          assert r[i] == c[i - 1] && r[i + 1] == c[i];
        }
      }
    }
  }

  /** Collapsing whitespace keeps every other character, in order. */
  lemma {:induction false} CollapseNonSpace(s: string)
    ensures NonSpace(Collapse(s)) == NonSpace(s)
    decreases |s|
  {
    if s != [] {
      var r := Collapse(s);
      if IsSpace(s[0]) {
        var t := StripLeft(s);
        CollapseNonSpace(t);
        var d := |s| - |t|;
        assert s == s[..d] + t;
        NonSpaceOfSpaces(s[..d]);
        NonSpaceAppend(s[..d], t);
        NonSpaceAppend([' '], Collapse(t));
        assert r == [' '] + Collapse(t);
      } else {
        var t := s[1..];
        CollapseNonSpace(t);
        assert s == [s[0]] + t;
        NonSpaceAppend([s[0]], t);
        NonSpaceAppend([s[0]], Collapse(t));
        assert r == [s[0]] + Collapse(t);
      }
    }
  }

  /** Every character of the collapsed text is a space or one of the input. */
  lemma {:induction false} CollapseChars(s: string)
    ensures forall x :: x in Collapse(s) ==> x == ' ' || x in s
    decreases |s|
  {
    if s != [] {
      var t := if IsSpace(s[0]) then StripLeft(s) else s[1..];
      CollapseChars(t);
      assert forall x :: x in t ==> x in s;
      assert Collapse(s) == [Collapse(s)[0]] + Collapse(t);
    }
  }

  /** A stripped text stays stripped. */
  lemma CollapseStripped(s: string)
    requires IsStripped(s)
    ensures IsStripped(Collapse(s))
  {
    if s != [] {
      CollapseLast(s);
    }
  }

  /** A text ending in a non-space character keeps that last character. */
  lemma {:induction false} CollapseLast(s: string)
    requires s != [] && !IsSpace(s[|s| - 1])
    ensures Collapse(s) != [] && Collapse(s)[|Collapse(s)| - 1] == s[|s| - 1]
    decreases |s|
  {
    if IsSpace(s[0]) {
      var t := StripLeft(s);
      assert t != [] && t[|t| - 1] == s[|s| - 1];
      CollapseLast(t);
    } else if |s| > 1 {
      CollapseLast(s[1..]);
    }
  }

  /** Text that is already single-spaced comes back unchanged. */
  lemma {:induction false} CollapseFixed(s: string)
    requires SingleSpaced(s)
    ensures Collapse(s) == s
    decreases |s|
  {
    if s != [] {
      assert SingleSpaced(s[1..]);
      if IsSpace(s[0]) {
        assert StripLeft(s) == s[1..] by {
          if |s| > 1 {
            assert s[1] != ' ';
            assert !IsSpace(s[1]);
          }
        }
      }
      CollapseFixed(s[1..]);
    }
  }

  // ---------------------------------------------------------- letter runs

  /** Length of the run of `s[0]` that starts `s`. */
  function RunLen(s: string): (n: nat)
    requires s != []
    ensures 1 <= n <= |s|
    decreases |s|
  {
    if |s| > 1 && s[1] == s[0] then 1 + RunLen(s[1..]) else 1
  }

  /** The run is a block of copies of `s[0]`, and it is maximal. */
  lemma {:induction false} RunLenFacts(s: string)
    requires s != []
    ensures s[..RunLen(s)] == Repeat(s[0], RunLen(s))
    ensures RunLen(s) < |s| ==> s[RunLen(s)] != s[0]
    decreases |s|
  {
    if |s| > 1 && s[1] == s[0] {
      RunLenFacts(s[1..]);
      assert s[..RunLen(s)] == [s[0]] + s[1..][..RunLen(s[1..])];
    }
  }

  /** What `(.)\1{3,}` -> `\1\1` leaves of one maximal run of `n` copies of
      `c`: two copies when the run is 4 or longer, the run itself otherwise;
      `.` does not match a line feed, so runs of line feeds stay. */
  function ShrunkLen(c: char, n: nat): nat {
    if n >= 4 && c != '\n' then 2 else n
  }

  /** `re.sub(r"(.)\1{3,}", r"\1\1", s)`. */
  function Squeeze(s: string): (r: string)
    ensures s == [] <==> r == []
    ensures s != [] ==> r[0] == s[0]
    ensures |r| <= |s|
    decreases |s|
  {
    if s == [] then []
    else
      var n := RunLen(s);
      Repeat(s[0], ShrunkLen(s[0], n)) + Squeeze(s[n..])
  }

  /** Run-length encoding: each entry a character and how often it repeats. */
  function Runs(s: string): (rs: seq<(char, nat)>)
    decreases |s|
  {
    if s == [] then [] else var n := RunLen(s); [(s[0], n)] + Runs(s[n..])
  }

  function Expand(rs: seq<(char, nat)>): string {
    if rs == [] then [] else Repeat(rs[0].0, rs[0].1) + Expand(rs[1..])
  }

  /** A proper encoding: no empty run, and neighbouring runs of different
      characters, so every run is maximal. */
  predicate ValidRuns(rs: seq<(char, nat)>) {
    && (forall k :: 0 <= k < |rs| ==> rs[k].1 >= 1)
    && (forall k :: 0 <= k < |rs| - 1 ==> rs[k].0 != rs[k + 1].0)
  }

  function Shrink(rs: seq<(char, nat)>): (out: seq<(char, nat)>)
    ensures |out| == |rs|
    ensures forall k :: 0 <= k < |rs| ==> out[k] == (rs[k].0, ShrunkLen(rs[k].0, rs[k].1))
  {
    seq(|rs|, k requires 0 <= k < |rs| => (rs[k].0, ShrunkLen(rs[k].0, rs[k].1)))
  }

  /** The encoding of a text is proper, and decodes back to the text. */
  lemma {:induction false} RunsValid(s: string)
    ensures ValidRuns(Runs(s))
    ensures Expand(Runs(s)) == s
    ensures s != [] ==> Runs(s)[0].0 == s[0]
    decreases |s|
  {
    if s != [] {
      var n := RunLen(s);
      RunLenFacts(s);
      RunsValid(s[n..]);
      assert n < |s| ==> s[n..][0] != s[0];
      ValidCons((s[0], n), Runs(s[n..]));
      ExpandCons(s, n);
    }
  }

  /** A run in front of a proper encoding that starts with another
      character. */
  lemma ValidCons(x: (char, nat), rs: seq<(char, nat)>)
    requires x.1 >= 1 && ValidRuns(rs)
    requires rs != [] ==> rs[0].0 != x.0
    ensures ValidRuns([x] + rs)
  {
    var t := [x] + rs;
    forall k | 0 <= k < |t| - 1
      ensures t[k].0 != t[k + 1].0
    {
      if k > 0 {
        assert t[k] == rs[k - 1] && t[k + 1] == rs[k];
      }
    }
  }

  lemma ExpandCons(s: string, n: nat)
    requires 1 <= n <= |s| && s[..n] == Repeat(s[0], n)
    requires Expand(Runs(s[n..])) == s[n..]
    requires Runs(s) == [(s[0], n)] + Runs(s[n..])
    ensures Expand(Runs(s)) == s
  {
    assert ([(s[0], n)] + Runs(s[n..]))[1..] == Runs(s[n..]);
    assert s == s[..n] + s[n..];
  }

  /** A proper encoding is recovered from its decoding. */
  lemma {:induction false} RunsOfExpand(rs: seq<(char, nat)>)
    requires ValidRuns(rs)
    ensures Runs(Expand(rs)) == rs
    decreases |rs|
  {
    if rs != [] {
      var head := Repeat(rs[0].0, rs[0].1);
      var tail := Expand(rs[1..]);
      var s := head + tail;
      assert ValidRuns(rs[1..]);
      RunsOfExpand(rs[1..]);
      RunLenOf(rs[0].0, rs[0].1, tail);
      assert s[rs[0].1..] == tail;
    }
  }

  lemma {:induction false} RunLenOf(c: char, n: nat, tail: string)
    requires n >= 1
    requires tail == [] || tail[0] != c
    ensures RunLen(Repeat(c, n) + tail) == n
    decreases n
  {
    var s := Repeat(c, n) + tail;
    if n > 1 {
      assert s[1..] == Repeat(c, n - 1) + tail;
      RunLenOf(c, n - 1, tail);
    }
  }

  /** Squeezing run by run: the text is re-assembled from the shrunk runs. */
  lemma {:induction false} SqueezeIsShrink(s: string)
    ensures Squeeze(s) == Expand(Shrink(Runs(s)))
    decreases |s|
  {
    if s != [] {
      var n := RunLen(s);
      SqueezeIsShrink(s[n..]);
      assert Shrink(Runs(s)) == [(s[0], ShrunkLen(s[0], n))] + Shrink(Runs(s[n..]));
    }
  }

  /** The squeeze rule on maximal runs: every run of 4 or more copies of a
      character (other than a line feed) becomes exactly 2 copies and every
      shorter run is kept, with the runs themselves in the same order. */
  lemma SqueezeRuns(s: string)
    ensures Runs(Squeeze(s)) == Shrink(Runs(s))
  {
    RunsValid(s);
    var rs := Shrink(Runs(s));
    assert ValidRuns(rs);
    SqueezeIsShrink(s);
    RunsOfExpand(rs);
  }

  /** No character other than a line feed appears 4 times in a row. */
  predicate NoLongRun(s: string) {
    forall i :: 0 <= i < |s| - 3 && s[i] != '\n' ==>
      !(s[i + 1] == s[i] && s[i + 2] == s[i] && s[i + 3] == s[i])
  }

  /** One step of `Squeeze`: the shrunk first run, then the rest squeezed. */
  lemma SqueezeStep(s: string)
    requires s != []
    ensures Squeeze(s) == Repeat(s[0], ShrunkLen(s[0], RunLen(s))) + Squeeze(s[RunLen(s)..])
    ensures s[..RunLen(s)] == Repeat(s[0], RunLen(s))
    ensures RunLen(s) < |s| ==> s[RunLen(s)] != s[0]
  {
    RunLenFacts(s);
  }

  /** Every character of the squeezed text is one of the input. */
  lemma {:induction false} SqueezeChars(s: string)
    ensures forall x :: x in Squeeze(s) ==> x in s
    decreases |s|
  {
    if s != [] {
      var n := RunLen(s);
      var t := s[n..];
      SqueezeStep(s);
      SqueezeChars(t);
      assert forall x :: x in t ==> x in s;
    }
  }

  /** `a` immediately followed by `b` somewhere in `s`. */
  predicate AdjacentIn(s: string, a: char, b: char) {
    exists j :: 0 <= j < |s| - 1 && s[j] == a && s[j + 1] == b
  }

  /** Every adjacent pair of the squeezed text is an adjacent pair of the
      input. */
  lemma {:induction false} SqueezePairs(s: string)
    ensures forall i :: 0 <= i < |Squeeze(s)| - 1 ==> AdjacentIn(s, Squeeze(s)[i], Squeeze(s)[i + 1])
    decreases |s|
  {
    if s != [] {
      var n := RunLen(s);
      var t := s[n..];
      SqueezeStep(s);
      SqueezePairs(t);
      var p := Repeat(s[0], ShrunkLen(s[0], n));
      var q := Squeeze(t);
      var r := Squeeze(s);
      forall i | 0 <= i < |r| - 1 ensures AdjacentIn(s, r[i], r[i + 1]) {
        if i + 1 < |p| {
          assert s[..n][0] == s[0] && s[..n][1] == s[1];
          assert s[0] == r[i] && s[1] == r[i + 1];
        } else if i + 1 == |p| {
          assert s[..n][n - 1] == s[n - 1];
          assert s[n - 1] == r[i] && s[n] == r[i + 1];
        } else {
          assert r[i] == q[i - |p|] && r[i + 1] == q[i - |p| + 1];
          assert AdjacentIn(t, q[i - |p|], q[i - |p| + 1]);
          var j :| 0 <= j < |t| - 1 && t[j] == q[i - |p|] && t[j + 1] == q[i - |p| + 1];
          assert s[n + j] == r[i] && s[n + j + 1] == r[i + 1];
        }
      }
    }
  }

  /** A short block of one character (or a block of line feeds) before a
      text that starts with another character adds no long run. */
  lemma NoLongRunConcat(c: char, k: nat, q: string)
    requires k <= 3 || c == '\n'
    requires NoLongRun(q) && (q == [] || q[0] != c)
    ensures NoLongRun(Repeat(c, k) + q)
  {
    var p := Repeat(c, k);
    var r := p + q;
    forall i | 0 <= i < |r| - 3 && r[i] != '\n'
      ensures !(r[i + 1] == r[i] && r[i + 2] == r[i] && r[i + 3] == r[i])
    {
      if i < k {
        assert r[k] == q[0];
      } else {
        assert r[i] == q[i - k] && r[i + 1] == q[i - k + 1];
        assert r[i + 2] == q[i - k + 2] && r[i + 3] == q[i - k + 3];
      }
    }
  }

  /** The squeezed text has no run of 4 equal characters (line feeds
      aside). */
  lemma {:induction false} SqueezeNoLongRun(s: string)
    ensures NoLongRun(Squeeze(s))
    decreases |s|
  {
    if s != [] {
      var n := RunLen(s);
      var t := s[n..];
      SqueezeStep(s);
      SqueezeNoLongRun(t);
      NoLongRunConcat(s[0], ShrunkLen(s[0], n), Squeeze(t));
    }
  }

  lemma NoLongRunSuffix(s: string, n: nat)
    requires NoLongRun(s) && n <= |s|
    ensures NoLongRun(s[n..])
  {
    var t := s[n..];
    forall i | 0 <= i < |t| - 3 && t[i] != '\n'
      ensures !(t[i + 1] == t[i] && t[i + 2] == t[i] && t[i + 3] == t[i])
    {
      assert t[i] == s[n + i] && t[i + 1] == s[n + i + 1];
      assert t[i + 2] == s[n + i + 2] && t[i + 3] == s[n + i + 3];
    }
  }

  /** In a text without long runs, the first run is kept whole. */
  lemma ShortFirstRun(s: string)
    requires s != [] && NoLongRun(s)
    ensures ShrunkLen(s[0], RunLen(s)) == RunLen(s)
  {
    var n := RunLen(s);
    RunLenFacts(s);
    if n >= 4 {
      var r := s[..n];
      assert r[1] == s[1] && r[2] == s[2] && r[3] == s[3];
      assert s[0] == '\n';
    }
  }

  /** Text without long runs comes back unchanged. */
  lemma {:induction false} SqueezeFixed(s: string)
    requires NoLongRun(s)
    ensures Squeeze(s) == s
    decreases |s|
  {
    if s != [] {
      var n := RunLen(s);
      ShortFirstRun(s);
      SqueezeStep(s);
      NoLongRunSuffix(s, n);
      SqueezeFixed(s[n..]);
      assert Squeeze(s) == s[..n] + s[n..];
    }
  }

  // -------------------------------------------------------- normalisation

  /** `normalize_text`: strip, lower-case, one space per whitespace run,
      long letter runs cut to two. */
  function NormalizeText(t: string): string
  {
    Squeeze(Collapse(Lower(Strip(t))))
  }

  predicate NoUpper(s: string) {
    forall i :: 0 <= i < |s| ==> !IsUpper(s[i])
  }

  /** The shape of a normalised text. */
  predicate Normalized(s: string) {
    IsStripped(s) && NoUpper(s) && SingleSpaced(s) && NoLongRun(s)
  }

  lemma {:induction false} SqueezeLast(s: string)
    requires s != []
    ensures Squeeze(s)[|Squeeze(s)| - 1] == s[|s| - 1]
    decreases |s|
  {
    var n := RunLen(s);
    SqueezeStep(s);
    if n < |s| {
      SqueezeLast(s[n..]);
    } else {
      assert s[|s| - 1] == s[..n][n - 1];
    }
  }

  /** Stripping then lower-casing gives a stripped text with no capitals. */
  lemma LowerStripShape(t: string)
    ensures IsStripped(Lower(Strip(t))) && NoUpper(Lower(Strip(t)))
  {
    var a := Strip(t);
    var b := Lower(a);
    if b != [] {
      LowerCharFacts(a[0]);
      LowerCharFacts(a[|a| - 1]);
    }
    forall i | 0 <= i < |b| ensures !IsUpper(b[i]) {
      LowerCharFacts(a[i]);
    }
  }

  /** Collapsing keeps a stripped text without capitals so, and spaces it
      singly. */
  lemma CollapseShape(b: string)
    requires IsStripped(b) && NoUpper(b)
    ensures IsStripped(Collapse(b)) && NoUpper(Collapse(b)) && SingleSpaced(Collapse(b))
  {
    var c := Collapse(b);
    CollapseSingleSpaced(b);
    CollapseChars(b);
    CollapseStripped(b);
    forall i | 0 <= i < |c| ensures !IsUpper(c[i]) {
      assert c[i] in c;
    }
  }

  /** Squeezing such a text adds the last property of a normal form. */
  lemma SqueezeShape(c: string)
    requires IsStripped(c) && NoUpper(c) && SingleSpaced(c)
    ensures Normalized(Squeeze(c))
  {
    var d := Squeeze(c);
    SqueezeChars(c);
    SqueezePairs(c);
    SqueezeNoLongRun(c);
    if c != [] {
      SqueezeLast(c);
    }
    forall i | 0 <= i < |d| ensures !IsUpper(d[i]) && (IsSpace(d[i]) ==> d[i] == ' ') {
      assert d[i] in c;
    }
    forall i | 0 <= i < |d| - 1 ensures !(d[i] == ' ' && d[i + 1] == ' ') {
      assert AdjacentIn(c, d[i], d[i + 1]);
    }
  }

  /** The output of `normalize_text` is trimmed, lower-case, single-spaced
      and free of runs of 4 equal characters. */
  lemma NormalizeShape(t: string)
    ensures Normalized(NormalizeText(t))
  {
    LowerStripShape(t);
    CollapseShape(Lower(Strip(t)));
    SqueezeShape(Collapse(Lower(Strip(t))));
  }

  /** A normalised text is its own normal form. */
  lemma NormalizeFixed(s: string)
    requires Normalized(s)
    ensures NormalizeText(s) == s
  {
    assert Strip(s) == s;
    forall i | 0 <= i < |s| ensures LowerChar(s[i]) == s[i] {
      LowerCharFacts(s[i]);
    }
    assert Lower(s) == s;
    CollapseFixed(s);
    SqueezeFixed(s);
  }

  /** Normalising twice is normalising once. */
  lemma NormalizeIdempotent(t: string)
    ensures NormalizeText(NormalizeText(t)) == NormalizeText(t)
  {
    NormalizeShape(t);
    NormalizeFixed(NormalizeText(t));
  }

  /** Letter case never matters to the normal form. */
  lemma NormalizeIgnoresCase(t: string)
    ensures NormalizeText(Lower(t)) == NormalizeText(t)
  {
    StripLower(t);
    LowerIdempotent(Strip(t));
  }

  lemma StripLower(t: string)
    ensures Strip(Lower(t)) == Lower(Strip(t))
  {
    var i := LeadingSpaces(t);
    SkipSpacesLower(t, 0);
    TrimEndLower(t, i, |t|);
    var e := TrimEnd(t, i, |t|);
    LowerInfix(t, i, e);
  }

  lemma LowerInfix(t: string, i: nat, e: nat)
    requires i <= e <= |t|
    ensures Lower(t)[i..e] == Lower(t[i..e])
  {
    forall k | 0 <= k < e - i
      ensures Lower(t)[i..e][k] == Lower(t[i..e])[k]
    {
      assert Lower(t)[i..e][k] == Lower(t)[i + k];
    }
  }

  lemma LowerIdempotent(s: string)
    ensures Lower(Lower(s)) == Lower(s)
  {
    forall i | 0 <= i < |s| ensures LowerChar(LowerChar(s[i])) == LowerChar(s[i]) {
      LowerCharFacts(s[i]);
    }
  }

  lemma {:induction false} SkipSpacesLower(s: string, i: nat)
    requires i <= |s|
    ensures SkipSpaces(Lower(s), i) == SkipSpaces(s, i)
    decreases |s| - i
  {
    if i < |s| {
      LowerCharFacts(s[i]);
      SkipSpacesLower(s, i + 1);
    }
  }

  lemma {:induction false} TrimEndLower(s: string, lo: nat, j: nat)
    requires lo <= j <= |s|
    ensures TrimEnd(Lower(s), lo, j) == TrimEnd(s, lo, j)
    decreases j
  {
    if j > lo {
      LowerCharFacts(s[j - 1]);
      TrimEndLower(s, lo, j - 1);
    }
  }

  /** `text_hash`: the digest of the normal form; the digest (SHA-256 in
      hex) is a parameter. */
  function TextHash(digest: string -> string, t: string): string {
    digest(NormalizeText(t))
  }

  /** Texts that normalise alike get the same fingerprint; in particular a
      text and its normal form, and a text and its lower-case form, do. */
  lemma HashOfNormalForm(digest: string -> string, t: string)
    ensures TextHash(digest, NormalizeText(t)) == TextHash(digest, t)
    ensures TextHash(digest, Lower(t)) == TextHash(digest, t)
  {
    NormalizeIdempotent(t);
    NormalizeIgnoresCase(t);
  }

  // ---------------------------------------------------------- link check

  const LinkMarkers: seq<string> := ["http://", "https://", "www.", "t.me/", "telegram.me/", "telegra.ph/"]

  /** Marker `m` at `i` of the lower-cased text, followed by a non-space. */
  predicate MarkerAt(low: string, m: string, i: int) {
    OccursAt(low, m, i) && i + |m| < |low| && !IsSpace(low[i + |m|])
  }

  /** `@` at `i` followed by at least four word characters. */
  predicate MentionAt(s: string, i: int) {
    && 0 <= i && i + 4 < |s| && s[i] == '@'
    && IsWordChar(s[i + 1]) && IsWordChar(s[i + 2]) && IsWordChar(s[i + 3]) && IsWordChar(s[i + 4])
  }

  /** `has_link` without the bare-domain alternative: an explicit URL or
      Telegram link prefix (any letter case) followed by at least one
      non-space character, or an `@username` of 4 or more word characters. */
  predicate HasLink(s: string) {
    || (exists m, i | m in LinkMarkers && 0 <= i < |s| :: MarkerAt(Lower(s), m, i))
    || (exists i | 0 <= i < |s| :: MentionAt(s, i))
  }

  /** A link is found whatever the letter case of the text. */
  lemma HasLinkIgnoresCase(s: string)
    ensures HasLink(Lower(s)) == HasLink(s)
  {
    var l := Lower(s);
    LowerIdempotent(s);
    forall j | 0 <= j < |s| ensures IsWordChar(l[j]) == IsWordChar(s[j]) && (l[j] == '@' <==> s[j] == '@') {
      LowerCharFacts(s[j]);
    }
    forall i | 0 <= i < |s| ensures MentionAt(l, i) == MentionAt(s, i) {
    }
  }

  lemma LowerConcat(x: string, y: string)
    ensures Lower(x + y) == Lower(x) + Lower(y)
  {
  }

  lemma MarkerShift(x: string, y: string, z: string, m: string, i: int)
    requires MarkerAt(y, m, i)
    ensures MarkerAt(x + y + z, m, |x| + i)
  {
    var w := x + y + z;
    assert forall k :: 0 <= k < |y| ==> w[|x| + k] == y[k];
    assert w[|x| + i..|x| + i + |m|] == y[i..i + |m|];
  }

  /** A link stays a link inside any surrounding text. */
  lemma LinkInContext(a: string, s: string, b: string)
    requires HasLink(s)
    ensures HasLink(a + s + b)
  {
    var w := a + s + b;
    var d := |a|;
    if exists m, i | m in LinkMarkers && 0 <= i < |s| :: MarkerAt(Lower(s), m, i) {
      var m, i :| m in LinkMarkers && 0 <= i < |s| && MarkerAt(Lower(s), m, i);
      var ls := Lower(s);
      LowerConcat(a, s);
      LowerConcat(a + s, b);
      var lw := Lower(a) + ls + Lower(b);
      assert Lower(w) == lw;
      MarkerShift(Lower(a), ls, Lower(b), m, i);
    } else {
      var i :| 0 <= i < |s| && MentionAt(s, i);
      assert w[d + i] == s[i] && w[d + i + 1] == s[i + 1] && w[d + i + 2] == s[i + 2];
      assert w[d + i + 3] == s[i + 3] && w[d + i + 4] == s[i + 4];
      assert MentionAt(w, d + i);
    }
  }

  // -------------------------------------------------------- Arabic script

  /** The code points of `ARABIC_RE`. */
  predicate IsArabic(c: char) {
    ('\U{600}' <= c <= '\U{6ff}') || ('\U{750}' <= c <= '\U{77f}') || ('\U{8a0}' <= c <= '\U{8ff}')
  }

  /** `has_arabic`: searches the text for an Arabic-script code point. */
  function HasArabic(s: string): (r: bool)
    ensures r <==> exists i :: 0 <= i < |s| && IsArabic(s[i])
    decreases |s|
  {
    if s == [] then false
    else if IsArabic(s[0]) then true
    else
      assert forall i :: 1 <= i < |s| ==> s[i] == s[1..][i - 1];
      HasArabic(s[1..])
  }

  // ---------------------------------------------------------- advertising

  const AdsStrong: seq<string> := ["reklama", "реклама", "obuna", "подпиш", "подписывай", "канал", "kanal", "daromad", "даромад"]
  const AdsWeak: seq<string> := ["pul", "деньги", "доход", "ish", "работа", "admin", "админ", "tg", "telegram"]

  /** `any(k in text for k in keys)`, scanning the keywords in order. */
  function AnyIn(text: string, keys: seq<string>): (r: bool)
    ensures r <==> exists k :: k in keys && Contains(text, k)
    decreases |keys|
  {
    if keys == [] then false
    else Contains(text, keys[0]) || AnyIn(text, keys[1..])
  }

  /** `looks_like_ads`: a strong keyword in the normal form is enough; a weak
      one counts only next to a link. */
  function LooksLikeAds(t: string): (r: bool)
    ensures (exists k :: k in AdsStrong && Contains(NormalizeText(t), k)) ==> r
    ensures !(exists k :: k in AdsStrong && Contains(NormalizeText(t), k)) ==>
      (r <==> HasLink(NormalizeText(t)) && exists k :: k in AdsWeak && Contains(NormalizeText(t), k))
  {
    var norm := NormalizeText(t);
    AnyIn(norm, AdsStrong) || (HasLink(norm) && AnyIn(norm, AdsWeak))
  }

  /** Advertising detection cannot be dodged by letter case, and judging
      the normal form again gives the same verdict. */
  lemma AdsStable(t: string)
    ensures LooksLikeAds(Lower(t)) == LooksLikeAds(t)
    ensures LooksLikeAds(NormalizeText(t)) == LooksLikeAds(t)
  {
    NormalizeIgnoresCase(t);
    NormalizeIdempotent(t);
  }

  // --------------------------------------------------------- channel posts

  /** Where a message comes from, as far as `is_channel_post` looks:
      whether it carries `sender_chat`, and the type of `forward_from_chat`
      when present. */
  datatype Origin = Origin(hasSenderChat: bool, forwardFromChatType: Option<string>)

  /** `is_channel_post`: posted on behalf of a chat, or forwarded from a
      channel. */
  predicate IsChannelPost(o: Origin) {
    o.hasSenderChat || (o.forwardFromChatType.Some? && o.forwardFromChatType.value == "channel")
  }

  /** A message sent on behalf of a chat is a channel post whatever it
      forwards; otherwise only a forward from a chat of type `channel` is,
      so a forward from a group or a plain message is not. */
  lemma ChannelPostOrigins(kind: string, fwd: Option<string>)
    ensures IsChannelPost(Origin(true, fwd))
    ensures IsChannelPost(Origin(false, Some(kind))) <==> kind == "channel"
    ensures !IsChannelPost(Origin(false, None))
  {
  }
}
