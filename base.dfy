/** The text helpers of the settings screen: the HTML sanitiser applied to
    admin-written texts, the ON/OFF label and the anti-raid line of the
    settings summary. */
module Base {
  import opened Common
  import opened Text
  import opened Models
  import opened Store
  import opened Settings

  // ------------------------------------------------------------ safe_html

  /** Where the run of ASCII letters and digits that starts at `i` ends. */
  function AlnumEnd(s: string, i: nat): (n: nat)
    requires i <= |s|
    ensures i <= n <= |s|
    ensures forall j :: i <= j < n ==> IsAsciiAlnum(s[j])
    ensures n < |s| ==> !IsAsciiAlnum(s[n])
    decreases |s| - i
  {
    if i < |s| && IsAsciiAlnum(s[i]) then AlnumEnd(s, i + 1) else i
  }

  /** A match of `</?([a-zA-Z0-9]+)[^>]*>`: its length and its group 1. */
  datatype Tag = Tag(len: nat, name: string)

  /** Where the name starts after `<`: past the optional `/`. */
  function NameStart(s: string): nat {
    if |s| > 1 && s[1] == '/' then 2 else 1
  }

  /** The match of the tag pattern at the start of `s`, if any. The name is
      the longest run of letters and digits after `<` or `</` (the pattern
      backtracks into it only when the rest fails, and the rest fails for
      every shorter run too), and the tag ends at the first `>` after it. */
  function TagAt(s: string): (t: Option<Tag>)
    ensures t.Some? ==> 3 <= t.value.len <= |s| && s[0] == '<' && s[t.value.len - 1] == '>'
    ensures t.Some? ==> t.value.name != [] && '>' !in s[1..t.value.len - 1]
  {
    if s == [] || s[0] != '<' then None
    else
      var k := NameStart(s);
      var e := AlnumEnd(s, k);
      if e == k then None
      else
        var j := IndexFrom(s, '>', e);
        if j == |s| then None
        else
          assert forall i :: 1 <= i < e ==> s[i] == '/' || IsAsciiAlnum(s[i]);
          Some(Tag(j + 1, s[k..e]))
  }

  /** The one tag name kept: group 1 lower-cases to `b`. */
  predicate KeptName(name: string) {
    |name| == 1 && LowerChar(name[0]) == 'b'
  }

  /** `safe_html`: scanning left to right, every match of the tag pattern is
      kept verbatim when its name is `b` (in either case) and dropped
      otherwise; everything else is copied. */
  function SafeHtml(s: string): (r: string)
    ensures |r| <= |s|
    decreases |s|
  {
    if s == [] then []
    else
      match TagAt(s)
      case Some(t) => (if KeptName(t.name) then s[..t.len] else []) + SafeHtml(s[t.len..])
      case None => [s[0]] + SafeHtml(s[1..])
  }

  /** Text with no `<` is returned unchanged. */
  lemma {:induction false} NoAngleUnchanged(s: string)
    requires '<' !in s
    ensures SafeHtml(s) == s
    decreases |s|
  {
    if s != [] {
      assert s[0] != '<';
      assert '<' !in s[1..] by {
        forall i | 0 <= i < |s| - 1 ensures s[1..][i] != '<' {
          assert s[1..][i] == s[i + 1];
        }
      }
      NoAngleUnchanged(s[1..]);
    }
  }

  /** The sanitiser never adds a character: the output is a sub-multiset of
      the input. */
  lemma {:induction false} SafeHtmlAddsNothing(s: string)
    ensures multiset(SafeHtml(s)) <= multiset(s)
    decreases |s|
  {
    if s != [] {
      match TagAt(s)
      case Some(t) =>
        var head, rest := s[..t.len], s[t.len..];
        SafeHtmlAddsNothing(rest);
        var kept := if KeptName(t.name) then head else [];
        assert SafeHtml(s) == kept + SafeHtml(rest);
        assert s == head + rest;
        assert multiset(s) == multiset(head) + multiset(rest);
      case None =>
        SafeHtmlAddsNothing(s[1..]);
        assert s == [s[0]] + s[1..];
    }
  }

  /** The text of an opening (`close` false) or closing tag. */
  function TagText(close: bool, name: string, attrs: string): string {
    ['<'] + (if close then ['/'] else []) + name + attrs + ['>']
  }

  /** The parts of a written tag, as the scan sees them. */
  lemma TagTextParts(close: bool, name: string, attrs: string, tail: string)
    requires name != [] && forall i :: 0 <= i < |name| ==> IsAsciiAlnum(name[i])
    ensures var s := TagText(close, name, attrs) + tail;
      var k := if close then 2 else 1;
      && s[0] == '<' && NameStart(s) == k
      && |TagText(close, name, attrs)| == k + |name| + |attrs| + 1
      && s[k..] == name + (attrs + (['>'] + tail))
  {
    var s := TagText(close, name, attrs) + tail;
    assert s[0] == '<';
    assert s[1] == (if close then '/' else name[0]);
  }

  /** A written tag is recognised with its name. */
  lemma TagAtOf(close: bool, name: string, attrs: string, tail: string)
    requires name != [] && forall i :: 0 <= i < |name| ==> IsAsciiAlnum(name[i])
    requires '>' !in attrs && (attrs == [] || !IsAsciiAlnum(attrs[0]))
    ensures TagAt(TagText(close, name, attrs) + tail)
         == Some(Tag(|TagText(close, name, attrs)|, name))
  {
    var s := TagText(close, name, attrs) + tail;
    var k := if close then 2 else 1;
    TagTextParts(close, name, attrs, tail);
    var e := k + |name|;
    var j := e + |attrs|;
    var v := attrs + (['>'] + tail);
    SuffixSplit(s, k, name, v);
    forall i | k <= i < e
      ensures IsAsciiAlnum(s[i])
    {
      assert s[i] == s[k..e][i - k];
    }
    assert s[e] == s[e..][0] == v[0];
    forall i | e <= i < j
      ensures s[i] != '>'
    {
      assert s[i] == s[e..][i - e] == attrs[i - e];
    }
    assert s[j] == s[e..][|attrs|] == '>';
    TagAtIs(s, k, e, j);
  }

  /** The match the scan finds, from where its name starts and ends and
      where its `>` is. */
  lemma TagAtIs(s: string, k: nat, e: nat, j: nat)
    requires s != [] && s[0] == '<' && NameStart(s) == k
    requires k < e < |s| && !IsAsciiAlnum(s[e])
    requires forall i :: k <= i < e ==> IsAsciiAlnum(s[i])
    requires e <= j < |s| && s[j] == '>'
    requires forall i :: e <= i < j ==> s[i] != '>'
    ensures TagAt(s) == Some(Tag(j + 1, s[k..e]))
  {
  }

  /** Where `s[k..]` is `x + v`, the slices at `k + |x|` are `x` and `v`. */
  lemma SuffixSplit(s: string, k: nat, x: string, v: string)
    requires k <= |s| && s[k..] == x + v
    ensures s[k..k + |x|] == x && s[k + |x|..] == v
  {
    assert s[k..][..|x|] == x;
    assert s[k..][|x|..] == v;
  }

  /** A tag is kept verbatim when its name is `b` or `B`, and removed with
      all its attributes otherwise; the text after it is sanitised on its own. */
  lemma TagHandled(close: bool, name: string, attrs: string, tail: string)
    requires name != [] && forall i :: 0 <= i < |name| ==> IsAsciiAlnum(name[i])
    requires '>' !in attrs && (attrs == [] || !IsAsciiAlnum(attrs[0]))
    ensures SafeHtml(TagText(close, name, attrs) + tail)
         == (if KeptName(name) then TagText(close, name, attrs) else []) + SafeHtml(tail)
  {
    var tag := TagText(close, name, attrs);
    var s := tag + tail;
    TagAtOf(close, name, attrs, tail);
    assert s[..|tag|] == tag;
    assert s[|tag|..] == tail;
  }

  /** `<b>` and `</b>` survive. */
  lemma BoldKept(close: bool, tail: string)
    ensures SafeHtml(TagText(close, ['b'], []) + tail) == TagText(close, ['b'], []) + SafeHtml(tail)
  {
    TagHandled(close, ['b'], [], tail);
  }

  /** `<i>` is removed. */
  lemma ItalicDropped(tail: string)
    ensures SafeHtml(TagText(false, ['i'], []) + tail) == SafeHtml(tail)
  {
    TagHandled(false, ['i'], [], tail);
  }

  /** Every tag the scan meets is a `b` tag: nothing left to remove. */
  predicate Clean(s: string)
    decreases |s|
  {
    s == [] ||
    match TagAt(s)
    case Some(t) => KeptName(t.name) && Clean(s[t.len..])
    case None => Clean(s[1..])
  }

  /** The sanitiser leaves a text alone exactly when the text is clean. */
  lemma {:induction false} FixedIffClean(s: string)
    ensures SafeHtml(s) == s <==> Clean(s)
    decreases |s|
  {
    if s != [] {
      match TagAt(s)
      case Some(t) =>
        FixedIffClean(s[t.len..]);
        if KeptName(t.name) {
          if SafeHtml(s) == s {
            assert s == s[..t.len] + s[t.len..];
            assert SafeHtml(s[t.len..]) == s[t.len..];
          }
          if Clean(s) {
            assert s == s[..t.len] + s[t.len..];
          }
        } else {
          assert |SafeHtml(s[t.len..])| <= |s| - t.len;
        }
      case None =>
        FixedIffClean(s[1..]);
        if SafeHtml(s) == s {
          assert s == [s[0]] + s[1..];
          assert SafeHtml(s[1..]) == s[1..];
        }
        if Clean(s) {
          assert s == [s[0]] + s[1..];
        }
    }
  }

  /** A text the sanitiser changes gets strictly shorter. */
  lemma {:induction false} ChangedIsShorter(s: string)
    ensures SafeHtml(s) != s ==> |SafeHtml(s)| < |s|
    decreases |s|
  {
    if s != [] {
      match TagAt(s)
      case Some(t) =>
        ChangedIsShorter(s[t.len..]);
        if KeptName(t.name) {
          assert s == s[..t.len] + s[t.len..];
        }
      case None =>
        ChangedIsShorter(s[1..]);
        assert s == [s[0]] + s[1..];
    }
  }

  lemma PlainTagText(name: string)
    ensures TagText(false, name, []) == ['<'] + (name + ['>'])
  {
    assert [] + name + [] == name;
  }

  /** A `<` followed by another `<` starts no tag and is copied. */
  lemma StrayAngle(u: string)
    requires u != [] && u[0] == '<'
    ensures SafeHtml(['<'] + u) == ['<'] + SafeHtml(u)
  {
    var s := ['<'] + u;
    assert s[1..] == u;
    assert AlnumEnd(s, 1) == 1;
    assert TagAt(s) == None;
  }

  /** As written, one pass can leave a tag it would itself remove: in
      `<<p>p>` the first `<` starts no tag, `<p>` is dropped, and the
      remaining `<` and `p>` join into a new `<p>`. Any name other than
      `b` does the same. */
  lemma OnePassLeavesTag(name: string)
    requires name != [] && forall i :: 0 <= i < |name| ==> IsAsciiAlnum(name[i])
    requires !KeptName(name)
    ensures SafeHtml(['<'] + (TagText(false, name, []) + (name + ['>']))) == TagText(false, name, [])
    ensures !Clean(SafeHtml(['<'] + (TagText(false, name, []) + (name + ['>']))))
  {
    StrayThenTag(name);
    PlainTagText(name);
    DroppedTagNotClean(name);
  }

  /** A name followed by `>` holds no `<` and is copied as it is. */
  lemma NameCloseUnchanged(name: string)
    requires forall i :: 0 <= i < |name| ==> IsAsciiAlnum(name[i])
    ensures SafeHtml(name + ['>']) == name + ['>']
  {
    var rest := name + ['>'];
    assert forall i :: 0 <= i < |rest| ==> rest[i] == '>' || IsAsciiAlnum(rest[i]);
    NoAngleUnchanged(rest);
  }

  /** A dropped tag followed by `name>`: only the `name>` is left. */
  lemma TagThenName(name: string)
    requires name != [] && forall i :: 0 <= i < |name| ==> IsAsciiAlnum(name[i])
    requires !KeptName(name)
    ensures SafeHtml(TagText(false, name, []) + (name + ['>'])) == name + ['>']
  {
    var rest := name + ['>'];
    NameCloseUnchanged(name);
    TagHandled(false, name, [], rest);
    assert [] + rest == rest;
  }

  /** The scan of `<` + tag + `name>`: the stray `<` is copied, the tag
      dropped and the rest copied. */
  lemma StrayThenTag(name: string)
    requires name != [] && forall i :: 0 <= i < |name| ==> IsAsciiAlnum(name[i])
    requires !KeptName(name)
    ensures SafeHtml(['<'] + (TagText(false, name, []) + (name + ['>']))) == ['<'] + (name + ['>'])
  {
    var u := TagText(false, name, []) + (name + ['>']);
    TagThenName(name);
    assert u[0] == '<';
    StrayAngle(u);
  }

  /** A tag other than `b` is not clean. */
  lemma DroppedTagNotClean(name: string)
    requires name != [] && forall i :: 0 <= i < |name| ==> IsAsciiAlnum(name[i])
    requires !KeptName(name)
    ensures !Clean(TagText(false, name, []))
  {
    var tag := TagText(false, name, []);
    assert tag == tag + [];
    TagHandled(false, name, [], []);
    FixedIffClean(tag);
  }

  /** The sanitiser repeated until nothing changes. */
  function SafeHtmlFixed(s: string): (r: string)
    ensures |r| <= |s|
    ensures Clean(r)
    decreases |s|
  {
    var once := SafeHtml(s);
    if once == s then
      FixedIffClean(s);
      s
    else
      ChangedIsShorter(s);
      SafeHtmlFixed(once)
  }

  /** The repeated sanitiser agrees with one pass on texts one pass
      cleans, in particular on texts without `<`, and what it returns has
      nothing left to remove. */
  lemma SafeHtmlFixedAgrees(s: string)
    ensures Clean(SafeHtml(s)) ==> SafeHtmlFixed(s) == SafeHtml(s)
    ensures SafeHtml(SafeHtmlFixed(s)) == SafeHtmlFixed(s)
  {
    FixedIffClean(SafeHtmlFixed(s));
    if Clean(SafeHtml(s)) && SafeHtml(s) != s {
      FixedIffClean(SafeHtml(s));
    }
  }

  // -------------------------------------------------------------------- _on

  /** `_on`: the label of a switch. */
  function OnText(flag: bool): (r: string)
    ensures r == "ON" || r == "OFF"
  {
    if flag then "ON" else "OFF"
  }

  /** The label reads back as the switch it shows: typing it after a
      toggle command sets the same value. */
  lemma OnTextReadsBack(flag: bool)
    ensures ToggleValue(OnText(flag)) == Some(flag)
  {
    if flag {
      OnReadsBack(OnText(flag), "on");
    } else {
      OffReadsBack(OnText(flag), "off");
    }
  }

  lemma OnReadsBack(w: string, lower: string)
    requires w == "ON" && lower == "on"
    ensures ToggleValue(w) == Some(true)
  {
    ShownNormal(w, lower);
    ToggleOnWord(lower);
  }

  lemma OffReadsBack(w: string, lower: string)
    requires w == "OFF" && lower == "off"
    ensures ToggleValue(w) == Some(false)
  {
    ShownNormal(w, lower);
    ToggleOffWord(lower);
  }

  /** A label reads as its lower-case form. */
  lemma ShownNormal(w: string, lower: string)
    requires IsStripped(w) && Lower(w) == lower
    ensures ToggleValue(w) == ToggleValue(lower)
  {
    NormalKept(lower);
  }

  // ----------------------------------------------------------- anti-raid

  /** The anti-raid line of `settings_text`. */
  function AntiRaidLine(s: ChatSettings): string {
    if s.raidLimit <= 0 then
      "• Anti-raid: OFF\n"
    else
      "• Anti-raid: limit " + ToDecimalInt(s.raidLimit)
        + " / oyna " + ToDecimalInt(s.raidWindowMin)
        + "soat / yopish " + ToDecimalInt(s.raidCloseMin) + "soat\n"
  }

  /** The summary shows the anti-raid as off exactly when its limit is not
      positive, and otherwise starts with the limit itself. */
  lemma AntiRaidOffIff(s: ChatSettings, off: string, head: string)
    requires off == "• Anti-raid: OFF\n" && head == "• Anti-raid: limit "
    ensures AntiRaidLine(s) == off <==> s.raidLimit <= 0
    ensures s.raidLimit > 0 ==> StartsWith(AntiRaidLine(s), head + ToDecimalInt(s.raidLimit))
  {
    if s.raidLimit > 0 {
      var r := AntiRaidLine(s);
      assert r[13] == head[13] == 'l';
      assert off[13] == 'O';
      assert r[..|head + ToDecimalInt(s.raidLimit)|] == head + ToDecimalInt(s.raidLimit);
    }
  }
}
