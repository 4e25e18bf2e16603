/** The two text transformers of the saved-ads editor: reading the
    `name | url` button lines an admin types, and the title a saved ad
    gets from its text. */
module Ads {
  import opened Common
  import opened Text

  /** An inline URL button. */
  datatype Button = Button(name: string, url: string)

  /** The URL prefixes a button may use. */
  predicate IsButtonUrl(u: string) {
    || StartsWith(u, "http://") || StartsWith(u, "https://")
    || StartsWith(u, "tg://") || StartsWith(u, "https://t.me/")
  }

  /** What every button `_parse_buttons` yields looks like. */
  predicate ValidButton(b: Button) {
    b.name != [] && |b.name| <= 64 && b.url != [] && IsStripped(b.url) && IsButtonUrl(b.url)
  }

  /** One line of `_parse_buttons`: stripped, split at its first `|`, both
      halves stripped; the name is cut to 64 characters and the URL kept
      as it is. None when the line is blank, has no `|`, has an empty half
      or a URL with another prefix. */
  function LineButton(raw: string): (b: Option<Button>)
    ensures b.Some? ==> ValidButton(b.value)
  {
    var line := Strip(raw);
    if line == [] || '|' !in line then None
    else
      var i := IndexOf(line, '|');
      MakeButton(Strip(line[..i]), Strip(line[i + 1..]))
  }

  /** The button of two stripped halves, if both are present and the URL
      has an accepted prefix. */
  function MakeButton(t: string, u: string): (b: Option<Button>)
    requires IsStripped(u)
    ensures b.Some? ==> ValidButton(b.value)
  {
    if t == [] || u == [] then None
    else if !IsButtonUrl(u) then None
    else Some(Button(Take(t, 64), u))
  }

  /** Two halves that already meet the rules make exactly that button. */
  lemma MakeButtonOf(t: string, u: string)
    requires t != [] && |t| <= 64
    requires u != [] && IsStripped(u) && IsButtonUrl(u)
    ensures MakeButton(t, u) == Some(Button(t, u))
  {
    assert Take(t, 64) == t[..|t|];
  }

  /** The buttons `read` finds in the first `n` lines, in order. */
  function KeptUpTo(read: string -> Option<Button>, lines: seq<string>, n: nat): (bs: seq<Button>)
    requires n <= |lines|
    ensures |bs| <= n
  {
    if n == 0 then [] else KeptUpTo(read, lines, n - 1) + Emitted(read(lines[n - 1]))
  }

  /** The buttons `read` finds in all the lines, in order. */
  function Kept(read: string -> Option<Button>, lines: seq<string>): seq<Button> {
    KeptUpTo(read, lines, |lines|)
  }

  /** The result of one line as a sequence of zero or one buttons. */
  function Emitted(o: Option<Button>): (bs: seq<Button>)
    ensures |bs| <= 1
    ensures o.None? <==> bs == []
  {
    match o
    case None => []
    case Some(b) => [b]
  }

  /** Every kept button is one that `read` returned, in particular valid
      when `read` only returns valid buttons. */
  lemma {:induction false} KeptValid(read: string -> Option<Button>, lines: seq<string>, n: nat)
    requires n <= |lines|
    requires forall x :: read(x).Some? ==> ValidButton(read(x).value)
    ensures forall k :: 0 <= k < |KeptUpTo(read, lines, n)| ==> ValidButton(KeptUpTo(read, lines, n)[k])
  {
    if n > 0 {
      KeptValid(read, lines, n - 1);
      var init := KeptUpTo(read, lines, n - 1);
      var e := Emitted(read(lines[n - 1]));
      var bs := KeptUpTo(read, lines, n);
      assert bs == init + e;
      forall k | 0 <= k < |bs| ensures ValidButton(bs[k]) {
        if k >= |init| {
          assert bs[k] == e[k - |init|];
        }
      }
    }
  }

  /** The lines of a first block decide the buttons kept from it. */
  lemma {:induction false} KeptPrefix(read: string -> Option<Button>, a: seq<string>, b: seq<string>, n: nat)
    requires n <= |a|
    ensures KeptUpTo(read, a + b, n) == KeptUpTo(read, a, n)
  {
    if n > 0 {
      KeptPrefix(read, a, b, n - 1);
      assert (a + b)[n - 1] == a[n - 1];
    }
  }

  lemma {:induction false} KeptUpToAppend(read: string -> Option<Button>, a: seq<string>, b: seq<string>, n: nat)
    requires n <= |b|
    ensures KeptUpTo(read, a + b, |a| + n) == Kept(read, a) + KeptUpTo(read, b, n)
  {
    if n == 0 {
      KeptPrefix(read, a, b, |a|);
    } else {
      KeptUpToAppend(read, a, b, n - 1);
      assert (a + b)[|a| + n - 1] == b[n - 1];
      var x, y, e := Kept(read, a), KeptUpTo(read, b, n - 1), Emitted(read(b[n - 1]));
      assert x + y + e == x + (y + e);
    }
  }

  /** Lines are read independently and in order: the buttons of two blocks
      of lines are the buttons of the first followed by those of the second. */
  lemma KeptAppend(read: string -> Option<Button>, a: seq<string>, b: seq<string>)
    ensures Kept(read, a + b) == Kept(read, a) + Kept(read, b)
  {
    KeptUpToAppend(read, a, b, |b|);
  }

  /** The buttons of `text`: the first ten valid lines, in input order. */
  function Buttons(text: string): seq<Button> {
    Take(Kept(LineButton, SplitLines(text)), 10)
  }

  /** At most ten buttons, each with a non-empty name of at most 64
      characters and an accepted URL. */
  lemma ButtonsBounded(text: string)
    ensures |Buttons(text)| <= 10
    ensures forall k :: 0 <= k < |Buttons(text)| ==> ValidButton(Buttons(text)[k])
  {
    var lines := SplitLines(text);
    KeptValid(LineButton, lines, |lines|);
  }

  /** `_parse_buttons`: the buttons of the lines of the text, cut to ten. */
  method ParseButtons(text: string) returns (out: seq<Button>)
    ensures out == Buttons(text)
  {
    out := KeepButtons(SplitLines(text));
    if |out| > 10 {
      out := out[..10];
    }
  }

  /** The loop of `_parse_buttons` over the lines, appending one button per
      accepted line. */
  method KeepButtons(lines: seq<string>) returns (out: seq<Button>)
    ensures out == Kept(LineButton, lines)
  {
    out := [];
    for i := 0 to |lines|
      invariant out == KeptUpTo(LineButton, lines, i)
    {
      var b := ReadLine(lines[i]);
      if b.Some? {
        out := out + [b.value];
      }
    }
  }

  /** The body of the loop of `_parse_buttons` for one line: each
      `continue` of the source is a `None`. */
  method ReadLine(raw: string) returns (b: Option<Button>)
    ensures b == LineButton(raw)
  {
    var line := Strip(raw);
    if line == [] || '|' !in line {
      return None;
    }
    var cut := IndexOf(line, '|');
    var t := Strip(line[..cut]);
    var u := Strip(line[cut + 1..]);
    if t == [] || u == [] {
      return None;
    }
    if !IsButtonUrl(u) {
      return None;
    }
    return Some(Button(Take(t, 64), u));
  }

  /** A stripped, non-empty text padded with whitespace on both sides
      strips back to itself. */
  lemma StripPadded(pre: string, x: string, post: string)
    requires x != [] && IsStripped(x)
    requires forall i :: 0 <= i < |pre| ==> IsSpace(pre[i])
    requires forall i :: 0 <= i < |post| ==> IsSpace(post[i])
    ensures Strip(pre + x + post) == x
  {
    var s := pre + x + post;
    var l := StripLeft(s);
    assert s[|pre|] == x[0];
    assert forall i :: 0 <= i < |pre| ==> s[i] == pre[i];
    assert |s| - |l| == |pre|;
    assert l == x + post;
    var r := StripRight(l);
    assert l[|x| - 1] == x[|x| - 1];
    assert forall i :: |x| <= i < |l| ==> l[i] == post[i - |x|];
    assert |r| == |x|;
    assert r == x;
  }

  /** Splitting at the first `|` of `pre + "|" + post` when `pre` has none. */
  lemma BarSplit(pre: string, post: string)
    requires '|' !in pre
    ensures IndexOf(pre + ['|'] + post, '|') == |pre|
    ensures (pre + ['|'] + post)[..|pre|] == pre
    ensures (pre + ['|'] + post)[|pre| + 1..] == post
  {
    var line := pre + ['|'] + post;
    assert line[|pre|] == '|';
    assert forall j :: 0 <= j < |pre| ==> line[j] == pre[j];
  }

  /** A button line written the way the editor asks for, `name | url`,
      reads back as that button when the name fits in 64 characters. */
  lemma ButtonLine(name: string, url: string)
    requires name != [] && IsStripped(name) && '|' !in name && |name| <= 64
    requires url != [] && IsStripped(url) && IsButtonUrl(url)
    ensures LineButton(name + " | " + url) == Some(Button(name, url))
  {
    var pre, post := name + [' '], [' '] + url;
    var line := pre + ['|'] + post;
    PaddedBar(name, url);
    BarLineStripped(name, url);
    NoBarPadded(name);
    BarSplit(pre, post);
    StripPadded([], name, [' ']);
    assert [] + name + [' '] == pre;
    StripPadded([' '], url, []);
    assert [' '] + url + [] == post;
    MakeButtonOf(name, url);
    CutLine(line, |pre|, name, url);
  }

  /** `LineButton` on a stripped line whose first bar is at `i` and whose
      halves strip to `name` and `url`. */
  lemma CutLine(line: string, i: nat, name: string, url: string)
    requires IsStripped(line) && i < |line| && line[i] == '|' && IndexOf(line, '|') == i
    requires Strip(line[..i]) == name && Strip(line[i + 1..]) == url
    requires MakeButton(name, url) == Some(Button(name, url))
    ensures LineButton(line) == Some(Button(name, url))
  {
    assert Strip(line) == line;
  }

  lemma PaddedBar(name: string, url: string)
    ensures name + " | " + url == (name + [' ']) + ['|'] + ([' '] + url)
  {
    var a, b := name + " | " + url, (name + [' ']) + ['|'] + ([' '] + url);
    assert |a| == |b|;
    forall k | 0 <= k < |a| ensures a[k] == b[k] {
      if k < |name| {
        assert a[k] == name[k] == b[k];
      } else if k < |name| + 3 {
      } else {
        assert a[k] == url[k - |name| - 3] == b[k];
      }
    }
  }

  lemma BarLineStripped(name: string, url: string)
    requires name != [] && IsStripped(name) && url != [] && IsStripped(url)
    ensures IsStripped(name + " | " + url)
  {
    var line := name + " | " + url;
    assert line[0] == name[0];
    assert line[|line| - 1] == url[|url| - 1];
  }

  lemma NoBarPadded(name: string)
    requires '|' !in name
    ensures '|' !in name + [' ']
  {
    var pre := name + [' '];
    forall j | 0 <= j < |pre| ensures pre[j] != '|' {
      if j < |name| {
        assert pre[j] == name[j];
      }
    }
  }

  // -------------------------------------------------------------- title

  lemma LineBreakIsSpace(c: char)
    ensures IsLineBreak(c) ==> IsSpace(c)
  {
  }

  /** The title `ad_save` gives an ad: the first line of the stripped
      text, or `Reklama` when the text is blank, cut to 80 characters. */
  function AdTitle(text: string): (r: string)
    ensures r != [] && |r| <= 80 && NoLineBreak(r)
    ensures Strip(text) == [] ==> r == "Reklama"
    ensures Strip(text) != [] ==> |r| <= |Strip(text)| && r == Strip(text)[..|r|]
    ensures Strip(text) != [] ==> |r| == Min(80, LineEnd(Strip(text)))
  {
    TitleOf(Strip(text))
  }

  /** The title of the stripped text `s`. */
  function TitleOf(s: string): (r: string)
    requires IsStripped(s)
    ensures r != [] && |r| <= 80 && NoLineBreak(r)
    ensures s == [] ==> r == "Reklama"
    ensures s != [] ==> |r| <= |s| && r == s[..|r|]
    ensures s != [] ==> |r| == Min(80, LineEnd(s))
  {
    if s == [] then "Reklama"
    else
      var first := FirstLine(s);
      PrefixNoLineBreak(first, Min(80, |first|));
      Take(first, 80)
  }

  /** A prefix of a text without line breaks has none either. */
  lemma PrefixNoLineBreak(s: string, n: nat)
    requires n <= |s| && NoLineBreak(s)
    ensures NoLineBreak(s[..n])
  {
    assert forall j :: 0 <= j < n ==> s[..n][j] == s[j];
  }

  /** The first line of a non-empty stripped text: a non-empty prefix
      without line breaks. */
  function FirstLine(s: string): (r: string)
    requires s != [] && IsStripped(s)
    ensures r != [] && |r| <= |s| && NoLineBreak(r) && r == s[..|r|]
    ensures |r| == LineEnd(s)
  {
    LineBreakIsSpace(s[0]);
    var first := SplitLines(s)[0];
    assert first == s[..LineEnd(s)];
    first
  }

  /** A one-line text of at most 80 characters is its own title. */
  lemma ShortTitle(text: string)
    requires text != [] && IsStripped(text) && NoLineBreak(text) && |text| <= 80
    ensures AdTitle(text) == text
  {
    assert LineEnd(text) == |text|;
  }
}
