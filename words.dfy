/** The bad-word matcher of the message guard: the text is reduced to its
    word tokens separated by single spaces and padded with one space on
    each side, and a bad word `w` matches when `" w "` occurs in it. */
module Words {
  import opened Common
  import opened Text
  import opened Moderation

  /** Length of the run of non-word characters that starts `s`. */
  function NonWordRun(s: string): (n: nat)
    ensures n <= |s|
    ensures s != [] && !IsWordChar(s[0]) ==> n >= 1
    ensures n < |s| ==> IsWordChar(s[n])
  {
    if s != [] && !IsWordChar(s[0]) then 1 + NonWordRun(s[1..]) else 0
  }

  /** `re.sub(r"[^\w]+", " ", s)`: every maximal run of non-word
      characters becomes one space. */
  function NonWordToSpace(s: string): (r: string)
    ensures s == [] <==> r == []
    ensures s != [] && IsWordChar(s[0]) ==> r[0] == s[0]
    ensures s != [] && !IsWordChar(s[0]) ==> r[0] == ' '
    decreases |s|
  {
    if s == [] then []
    else if IsWordChar(s[0]) then [s[0]] + NonWordToSpace(s[1..])
    else [' '] + NonWordToSpace(s[NonWordRun(s)..])
  }

  /** Only word characters and single plain spaces. */
  predicate WordsAndSpaces(s: string) {
    && (forall i :: 0 <= i < |s| ==> IsWordChar(s[i]) || s[i] == ' ')
    && (forall i :: 0 <= i < |s| - 1 ==> !(s[i] == ' ' && s[i + 1] == ' '))
  }

  /** Word tokens separated by single spaces, with no space at either end. */
  predicate Tokenized(s: string) {
    WordsAndSpaces(s) && (s == [] || (s[0] != ' ' && s[|s| - 1] != ' '))
  }

  lemma {:induction false} NonWordToSpaceShape(s: string)
    ensures WordsAndSpaces(NonWordToSpace(s))
    decreases |s|
  {
    if s != [] {
      var r := NonWordToSpace(s);
      var t := if IsWordChar(s[0]) then s[1..] else s[NonWordRun(s)..];
      NonWordToSpaceShape(t);
      var c := NonWordToSpace(t);
      assert r == [r[0]] + c;
      forall i | 0 <= i < |r| ensures IsWordChar(r[i]) || r[i] == ' ' {
        if i > 0 {
          assert r[i] == c[i - 1];
        }
      }
      forall i | 0 <= i < |r| - 1 ensures !(r[i] == ' ' && r[i + 1] == ' ') {
        if i == 0 {
          assert r[1] == c[0];
          if !IsWordChar(s[0]) {
            assert IsWordChar(t[0]);
          }
        } else {
          assert r[i] == c[i - 1] && r[i + 1] == c[i];
        }
      }
    }
  }

  lemma WordsAndSpacesSingleSpaced(s: string)
    requires WordsAndSpaces(s)
    ensures SingleSpaced(s)
  {
    forall i | 0 <= i < |s| && IsSpace(s[i]) ensures s[i] == ' ' {
      WordCharIsNotSpace(s[i]);
    }
  }

  /** The tokens of `_normalize_for_words` before the padding: lower-cased,
      non-word runs turned into single spaces, whitespace collapsed and the
      ends stripped. */
  function Inner(t: string): string {
    Strip(Collapse(NonWordToSpace(Lower(t))))
  }

  /** `_normalize_for_words(t)`. */
  function WordsForm(t: string): string {
    [' '] + Inner(t) + [' ']
  }

  /** Any infix of a text of word characters and single spaces is one too. */
  lemma InfixWordsAndSpaces(a: string, lo: nat, hi: nat)
    requires lo <= hi <= |a| && WordsAndSpaces(a)
    ensures WordsAndSpaces(a[lo..hi])
  {
    var r := a[lo..hi];
    forall i | 0 <= i < |r| ensures IsWordChar(r[i]) || r[i] == ' ' {
      assert r[i] == a[lo + i];
    }
    forall i | 0 <= i < |r| - 1 ensures !(r[i] == ' ' && r[i + 1] == ' ') {
      assert r[i] == a[lo + i] && r[i + 1] == a[lo + i + 1];
    }
  }

  /** Stripping the ends keeps the token structure. */
  lemma StripTokenized(a: string)
    requires WordsAndSpaces(a)
    ensures Tokenized(Strip(a))
  {
    var r := Strip(a);
    var d := LeadingSpaces(a);
    assert IsStripped(r) && r == a[d..d + |r|];
    StrippedInfixTokenized(a, d, d + |r|);
  }

  /** A stripped infix of such a text is tokenised. */
  lemma StrippedInfixTokenized(a: string, lo: nat, hi: nat)
    requires lo <= hi <= |a| && WordsAndSpaces(a) && IsStripped(a[lo..hi])
    ensures Tokenized(a[lo..hi])
  {
    InfixWordsAndSpaces(a, lo, hi);
  }

  lemma InnerTokenized(t: string)
    ensures Tokenized(Inner(t))
  {
    var a := NonWordToSpace(Lower(t));
    NonWordToSpaceShape(Lower(t));
    WordsAndSpacesSingleSpaced(a);
    CollapseFixed(a);
    StripTokenized(a);
  }

  /** The normal form starts and ends with exactly one space and holds
      word tokens separated by single spaces. */
  lemma WordsFormShape(t: string)
    ensures |WordsForm(t)| >= 2
    ensures WordsForm(t)[0] == ' ' && WordsForm(t)[|WordsForm(t)| - 1] == ' '
    ensures Tokenized(WordsForm(t)[1..|WordsForm(t)| - 1])
  {
    InnerTokenized(t);
    assert WordsForm(t)[1..|WordsForm(t)| - 1] == Inner(t);
  }

  /** A bad word `w` matches the text. */
  predicate Matches(norm: string, w: string) {
    Contains(norm, [' '] + w + [' '])
  }

  predicate AllWordChars(w: string) {
    forall i :: 0 <= i < |w| ==> IsWordChar(w[i])
  }

  lemma OccursShift(r: string, x: string, k: int, d: nat)
    requires d <= |r| && k >= 0
    ensures OccursAt(r[d..], x, k) <==> OccursAt(r, x, k + d)
  {
    if OccursAt(r[d..], x, k) {
      assert r[k + d..k + d + |x|] == r[d..][k..k + |x|];
    }
    if OccursAt(r, x, k + d) {
      assert r[k + d..k + d + |x|] == r[d..][k..k + |x|];
    }
  }

  /** A padded one-token text matches exactly its own token. */
  lemma SingleTokenMatch(p: string, w: string)
    requires ' ' !in p && w != [] && AllWordChars(w)
    ensures Matches([' '] + p + [' '], w) <==> w == p
  {
    var r := [' '] + p + [' '];
    var x := [' '] + w + [' '];
    if w == p {
      assert OccursAt(r, x, 0);
    }
    if k :| 0 <= k <= |r| - |x| && OccursAt(r, x, k) {
      assert r[k] == x[0] == ' ';
      assert k == 0;
      assert r[|w| + 1] == x[|w| + 1] == ' ';
      assert |w| == |p|;
      assert r[1..|w| + 1] == w;
      assert r[1..|p| + 1] == p;
    }
  }

  /** An occurrence at the very start of a padded text whose first token
      is `p` is `p` itself. */
  lemma HeadTokenMatch(p: string, rest: string, w: string)
    requires ' ' !in p && w != [] && AllWordChars(w)
    requires OccursAt([' '] + p + [' '] + rest + [' '], [' '] + w + [' '], 0)
    ensures w == p
  {
    var r := [' '] + p + [' '] + rest + [' '];
    var x := [' '] + w + [' '];
    assert r[|w| + 1] == x[|w| + 1] == ' ';
    assert |w| >= |p|;
    assert w[..|p|] == r[1..|p| + 1] == p;
    assert r[|p| + 1] == ' ';
    assert |w| <= |p|;
  }

  /** No occurrence starts inside the first token. */
  lemma NoMatchInsideToken(p: string, rest: string, w: string, k: nat)
    requires ' ' !in p && 0 < k <= |p|
    ensures !OccursAt([' '] + p + [' '] + rest + [' '], [' '] + w + [' '], k)
  {
    var r := [' '] + p + [' '] + rest + [' '];
    assert r[k] == p[k - 1];
  }

  /** A padded text whose first token is `p` matches `w` iff `w` is `p`
      or `w` matches the padded remainder. */
  lemma FirstTokenMatch(p: string, rest: string, w: string)
    requires ' ' !in p && w != [] && AllWordChars(w)
    ensures Matches([' '] + p + [' '] + rest + [' '], w)
        <==> w == p || Matches([' '] + rest + [' '], w)
  {
    var r := [' '] + p + [' '] + rest + [' '];
    var x := [' '] + w + [' '];
    var d := |p| + 1;
    assert r[d..] == [' '] + rest + [' '];
    if w == p {
      assert OccursAt(r, x, 0);
    }
    if k :| 0 <= k <= |r[d..]| - |x| && OccursAt(r[d..], x, k) {
      OccursShift(r, x, k, d);
    }
    if k :| 0 <= k <= |r| - |x| && OccursAt(r, x, k) {
      if k == 0 {
        HeadTokenMatch(p, rest, w);
      } else if k < d {
        NoMatchInsideToken(p, rest, w, k);
      } else {
        OccursShift(r, x, k - d, d);
      }
    }
  }

  /** Whole-token matching: on a padded tokenised text, a bad word made of
      word characters matches exactly when it is one of the tokens. */
  lemma {:induction false} TokenMatch(s: string, w: string)
    requires Tokenized(s) && w != [] && AllWordChars(w)
    ensures Matches([' '] + s + [' '], w) <==> w in Split(s, ' ')
    decreases |s|
  {
    var i := IndexOf(s, ' ');
    if i == |s| {
      assert ' ' !in s;
      SingleTokenMatch(s, w);
    } else {
      var p := s[..i];
      var rest := s[i + 1..];
      assert ' ' !in p;
      assert s == p + [' '] + rest;
      assert [' '] + s + [' '] == [' '] + p + [' '] + rest + [' '];
      FirstTokenMatch(p, rest, w);
      assert Tokenized(rest) by {
        forall j | 0 <= j < |rest| ensures IsWordChar(rest[j]) || rest[j] == ' ' {
          assert rest[j] == s[i + 1 + j];
        }
        forall j | 0 <= j < |rest| - 1 ensures !(rest[j] == ' ' && rest[j + 1] == ' ') {
          assert rest[j] == s[i + 1 + j] && rest[j + 1] == s[i + 2 + j];
        }
        if rest != [] {
          assert rest[0] == s[i + 1] && s[i] == ' ';
          assert rest[|rest| - 1] == s[|s| - 1];
        }
      }
      TokenMatch(rest, w);
      assert Split(s, ' ') == [p] + Split(rest, ' ');
    }
  }

  /** A bad word made of word characters matches a message exactly when it
      is one of the message's word tokens (after lower-casing). */
  lemma BadWordIsWholeToken(t: string, w: string)
    requires w != [] && AllWordChars(w)
    ensures Matches(WordsForm(t), w) <==> w in Split(Inner(t), ' ')
  {
    InnerTokenized(t);
    TokenMatch(Inner(t), w);
  }

  /** A bad word holding a character that is neither a word character nor
      a space never matches anything. */
  lemma PunctuatedNeverMatches(t: string, w: string, j: int)
    requires 0 <= j < |w| && !IsWordChar(w[j]) && w[j] != ' '
    ensures !Matches(WordsForm(t), w)
  {
    var r := WordsForm(t);
    var x := [' '] + w + [' '];
    WordsFormShape(t);
    var inner := r[1..|r| - 1];
    forall k | 0 <= k <= |r| - |x| ensures !OccursAt(r, x, k) {
      assert x[1 + j] == w[j];
      assert r[k + 1 + j] == inner[k + j];
    }
  }

  /** Some word of `ws` matches. */
  predicate AnyMatch(norm: string, ws: seq<string>) {
    exists i :: 0 <= i < |ws| && Matches(norm, ws[i])
  }

  /** The bad-word scan of the guard: tries the words in list order and
      stops at the first that matches. */
  method FindBadWord(norm: string, ws: seq<string>) returns (hit: Option<nat>)
    ensures hit.None? <==> !AnyMatch(norm, ws)
    ensures hit.Some? ==> hit.value < |ws| && Matches(norm, ws[hit.value])
    ensures hit.Some? ==> forall j :: 0 <= j < hit.value ==> !Matches(norm, ws[j])
  {
    for i := 0 to |ws|
      invariant forall j :: 0 <= j < i ==> !Matches(norm, ws[j])
    {
      if Contains(norm, [' '] + ws[i] + [' ']) {
        return Some(i);
      }
    }
    return None;
  }
}
