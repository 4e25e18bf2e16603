/** The admin commands of the settings handlers: reading a command's
    argument, the range each numeric command accepts, the on/off switches,
    the linked-channel check, the bad-word commands and the anti-raid panel. */
module Settings {
  import opened Common
  import opened Text
  import opened Models
  import opened Store
  import opened Moderation
  import opened Words
  import Raid

  // ------------------------------------------------------------ arguments

  /** Index of the first whitespace character of `s`, or `|s|`. */
  function SpaceAt(s: string): (i: nat)
    ensures i <= |s|
    ensures i < |s| ==> IsSpace(s[i])
    ensures forall j :: 0 <= j < i ==> !IsSpace(s[j])
  {
    if s == [] || IsSpace(s[0]) then 0 else 1 + SpaceAt(s[1..])
  }

  /** `text.split(maxsplit=1)[1]`, which is also what the command filter
      hands over as `command.args`: what follows the first word, without the
      whitespace in front of it, or None when nothing follows. */
  function ArgOf(text: string): (r: Option<string>)
    ensures r.Some? ==> r.value != [] && !IsSpace(r.value[0])
  {
    var t := StripLeft(text);
    var a := StripLeft(t[SpaceAt(t)..]);
    if a == [] then None else Some(a)
  }

  predicate NoSpace(s: string) {
    forall i :: 0 <= i < |s| ==> !IsSpace(s[i])
  }

  lemma StripLeftKeeps(s: string)
    requires s != [] && !IsSpace(s[0])
    ensures StripLeft(s) == s
  {
  }

  /** The argument of `cmd arg` is `arg`. */
  lemma ArgOfCommand(cmd: string, arg: string)
    requires cmd != [] && NoSpace(cmd)
    requires arg != [] && !IsSpace(arg[0])
    ensures ArgOf(cmd + [' '] + arg) == Some(arg)
  {
    var text := cmd + [' '] + arg;
    StripLeftKeeps(text);
    assert text[|cmd|] == ' ';
    assert forall j :: 0 <= j < |cmd| ==> text[j] == cmd[j];
    assert SpaceAt(text) == |cmd|;
    assert text[|cmd|..] == [' '] + arg;
    assert ([' '] + arg)[1..] == arg;
    StripLeftKeeps(arg);
  }

  /** A command with nothing after it has no argument. */
  lemma ArgOfBare(cmd: string)
    requires NoSpace(cmd)
    ensures ArgOf(cmd) == None
  {
    if cmd != [] {
      StripLeftKeeps(cmd);
    }
  }

  // ------------------------------------------------------------ _parse_int

  /** `_parse_int`: the stripped argument must be all digits and its value
      lie within `lo..hi`. */
  function ParseInt(arg: string, lo: int, hi: int): (r: Option<int>)
    ensures r.Some? ==> lo <= r.value <= hi && IsDigits(Strip(arg))
  {
    DigitsIn(Strip(arg), lo, hi)
  }

  /** The digit test and range check of `_parse_int` on stripped text. */
  function DigitsIn(t: string, lo: int, hi: int): (r: Option<int>)
    ensures r.Some? ==> lo <= r.value <= hi && IsDigits(t)
  {
    if !IsDigits(t) then None
    else if ValueOf(t) < lo || ValueOf(t) > hi then None
    else Some(ValueOf(t))
  }

  lemma DigitsStripped(d: string)
    requires IsDigits(d)
    ensures Strip(d) == d
  {
    assert IsStripped(d) by {
      assert IsDigit(d[0]) && IsDigit(d[|d| - 1]);
    }
  }

  /** The decimal form of `n` reads back as `n` exactly when `n` is in range. */
  lemma ParseIntDecimal(n: nat, lo: int, hi: int)
    ensures ParseInt(ToDecimal(n), lo, hi) == if lo <= n <= hi then Some(n) else None
  {
    ParseIntDigits(ToDecimal(n), lo, hi);
    ValueOfToDecimal(n);
  }

  /** A digit string reads as its value when that is in range. */
  lemma ParseIntDigits(d: string, lo: int, hi: int)
    requires IsDigits(d)
    ensures ParseInt(d, lo, hi) == if lo <= ValueOf(d) <= hi then Some(ValueOf(d)) else None
  {
    DigitsStripped(d);
    StrippedArg(d, lo, hi);
    DigitsInRange(d, lo, hi);
  }

  lemma DigitsInRange(d: string, lo: int, hi: int)
    requires IsDigits(d)
    ensures DigitsIn(d, lo, hi) == if lo <= ValueOf(d) <= hi then Some(ValueOf(d)) else None
  {
  }

  /** Text with nothing to strip is read as it is. */
  lemma StrippedArg(t: string, lo: int, hi: int)
    requires Strip(t) == t
    ensures ParseInt(t, lo, hi) == DigitsIn(t, lo, hi)
  {
  }

  // ------------------------------------------------------ numeric commands

  /** The numeric commands, named by the settings field each one writes. */
  datatype NumberCmd =
    | RaidLimit    // /limit
    | RaidWindow   // /oyna
    | RaidClose    // /yopish
    | AdsLimit     // /rek_limit
    | SameMinutes  // /settime
    | FloodMsgs    // /setflood
    | FloodWindow  // /setfloodtime

  /** The least value each command accepts. */
  function Lo(c: NumberCmd): int {
    match c
    case RaidLimit => 0
    case RaidWindow => 1
    case RaidClose => 1
    case AdsLimit => 1
    case SameMinutes => 1
    case FloodMsgs => 3
    case FloodWindow => 3
  }

  /** The greatest value each command accepts. */
  function Hi(c: NumberCmd): int {
    match c
    case RaidLimit => 5000
    case RaidWindow => 60
    case RaidClose => 180
    case AdsLimit => 199
    case SameMinutes => 10080
    case FloodMsgs => 100
    case FloodWindow => 719
  }

  /** The refusal test the last four commands write out after `isdigit`. */
  predicate Refused(c: NumberCmd, v: int) {
    match c
    case AdsLimit => v <= 0 || v >= 200
    case SameMinutes => v < 1 || v > 10080
    case FloodMsgs => v < 3 || v > 100
    case FloodWindow => v <= 2 || v >= 720
    case _ => false
  }

  /** The value a numeric command stores, or None when it only replies
      with its usage or its range. */
  function ReadNumber(c: NumberCmd, text: string): (r: Option<int>)
    ensures r.Some? ==> Lo(c) <= r.value <= Hi(c)
  {
    match ArgOf(text)
    case None => None
    case Some(a) => NumberArg(c, a)
  }

  /** The check a numeric command makes of its argument. */
  function NumberArg(c: NumberCmd, a: string): (r: Option<int>)
    ensures r.Some? ==> Lo(c) <= r.value <= Hi(c)
  {
    match c
    case RaidLimit => ParseInt(a, 0, 5000)
    case RaidWindow => ParseInt(a, 1, 60)
    case RaidClose => ParseInt(a, 1, 180)
    case _ => CheckedDigits(c, Strip(a))
  }

  /** The `isdigit` test and written-out refusal of the last four numeric
      commands, on the stripped argument. */
  function CheckedDigits(c: NumberCmd, t: string): (r: Option<int>)
    requires !c.RaidLimit? && !c.RaidWindow? && !c.RaidClose?
    ensures r.Some? ==> Lo(c) <= r.value <= Hi(c)
  {
    if !IsDigits(t) || Refused(c, ValueOf(t)) then None else Some(ValueOf(t))
  }

  /** `cmd n` stores `n` exactly when `n` lies in the command's range. */
  lemma NumberCommand(c: NumberCmd, cmd: string, n: nat)
    requires cmd != [] && NoSpace(cmd)
    ensures ReadNumber(c, cmd + [' '] + ToDecimal(n)) == if Lo(c) <= n <= Hi(c) then Some(n) else None
  {
    var d := ToDecimal(n);
    ArgOfCommand(cmd, d);
    ParseIntDecimal(n, Lo(c), Hi(c));
    DigitsStripped(d);
    ValueOfToDecimal(n);
  }

  function NumberOf(s: ChatSettings, c: NumberCmd): int {
    match c
    case RaidLimit => s.raidLimit
    case RaidWindow => s.raidWindowMin
    case RaidClose => s.raidCloseMin
    case AdsLimit => s.adsDailyLimit
    case SameMinutes => s.antisameMinutes
    case FloodMsgs => s.floodMaxMsgs
    case FloodWindow => s.floodWindowSec
  }

  /** `update_settings(chat, <field>=v)` for the command's field. */
  function WithNumber(s: ChatSettings, c: NumberCmd, v: int): (r: ChatSettings)
    ensures NumberOf(r, c) == v
  {
    match c
    case RaidLimit => s.(raidLimit := v)
    case RaidWindow => s.(raidWindowMin := v)
    case RaidClose => s.(raidCloseMin := v)
    case AdsLimit => s.(adsDailyLimit := v)
    case SameMinutes => s.(antisameMinutes := v)
    case FloodMsgs => s.(floodMaxMsgs := v)
    case FloodWindow => s.(floodWindowSec := v)
  }

  /** Writing the old value back gives the old settings: a numeric
      command moves no field but its own. */
  lemma WithNumberRestores(s: ChatSettings, c: NumberCmd, v: int)
    ensures WithNumber(WithNumber(s, c, v), c, NumberOf(s, c)) == s
  {
    match c
    case RaidLimit =>
    case RaidWindow =>
    case RaidClose =>
    case AdsLimit =>
    case SameMinutes =>
    case FloodMsgs =>
    case FloodWindow =>
  }

  // --------------------------------------------------------------- toggles

  /** The on/off settings `_toggle` writes, one per command. */
  datatype Switch =
    | Links         // /ssilka
    | Ads           // /reklama
    | Arab          // /arab
    | Swear         // /sokin
    | ChannelPosts  // /kanalpost
    | ServiceMsgs   // /xizmat
    | AntiSame      // /antisame
    | AntiFlood     // /antiflood

  function SwitchOf(s: ChatSettings, sw: Switch): bool {
    match sw
    case Links => s.blockLinks
    case Ads => s.blockAds
    case Arab => s.blockArab
    case Swear => s.blockSwear
    case ChannelPosts => s.blockChannelPosts
    case ServiceMsgs => s.hideServiceMsgs
    case AntiSame => s.antisameEnabled
    case AntiFlood => s.antifloodEnabled
  }

  /** `update_settings(chat, <field>=b)`: sets one switch; putting the old
      value back gives the old settings, so no other field moves. */
  function WithSwitch(s: ChatSettings, sw: Switch, b: bool): (r: ChatSettings)
    ensures SwitchOf(r, sw) == b
  {
    match sw
    case Links => s.(blockLinks := b)
    case Ads => s.(blockAds := b)
    case Arab => s.(blockArab := b)
    case Swear => s.(blockSwear := b)
    case ChannelPosts => s.(blockChannelPosts := b)
    case ServiceMsgs => s.(hideServiceMsgs := b)
    case AntiSame => s.(antisameEnabled := b)
    case AntiFlood => s.(antifloodEnabled := b)
  }

  /** Writing the old value back gives the old settings: a toggle moves
      no field but its own switch. */
  lemma WithSwitchRestores(s: ChatSettings, sw: Switch, b: bool)
    ensures WithSwitch(WithSwitch(s, sw, b), sw, SwitchOf(s, sw)) == s
  {
    match sw
    case Links => RestoreLinks(s, b);
    case Ads => RestoreAds(s, b);
    case Arab => RestoreArab(s, b);
    case Swear => RestoreSwear(s, b);
    case ChannelPosts => RestoreChannelPosts(s, b);
    case ServiceMsgs => RestoreServiceMsgs(s, b);
    case AntiSame => RestoreAntiSame(s, b);
    case AntiFlood => RestoreAntiFlood(s, b);
  }

  // One case of WithSwitchRestores each: a 22-field record is cheaper to
  // compare one switch at a time.
  lemma RestoreLinks(s: ChatSettings, b: bool)
    ensures WithSwitch(WithSwitch(s, Links, b), Links, s.blockLinks) == s
  {}
  lemma RestoreAds(s: ChatSettings, b: bool)
    ensures WithSwitch(WithSwitch(s, Ads, b), Ads, s.blockAds) == s
  {}
  lemma RestoreArab(s: ChatSettings, b: bool)
    ensures WithSwitch(WithSwitch(s, Arab, b), Arab, s.blockArab) == s
  {}
  lemma RestoreSwear(s: ChatSettings, b: bool)
    ensures WithSwitch(WithSwitch(s, Swear, b), Swear, s.blockSwear) == s
  {}
  lemma RestoreChannelPosts(s: ChatSettings, b: bool)
    ensures WithSwitch(WithSwitch(s, ChannelPosts, b), ChannelPosts, s.blockChannelPosts) == s
  {}
  lemma RestoreServiceMsgs(s: ChatSettings, b: bool)
    ensures WithSwitch(WithSwitch(s, ServiceMsgs, b), ServiceMsgs, s.hideServiceMsgs) == s
  {}
  lemma RestoreAntiSame(s: ChatSettings, b: bool)
    ensures WithSwitch(WithSwitch(s, AntiSame, b), AntiSame, s.antisameEnabled) == s
  {}
  lemma RestoreAntiFlood(s: ChatSettings, b: bool)
    ensures WithSwitch(WithSwitch(s, AntiFlood, b), AntiFlood, s.antifloodEnabled) == s
  {}

  /** The accepted words of `_toggle`, compared after `_norm_arg`. */
  function ToggleWord(a: string): Option<bool> {
    if a == "yoq" || a == "on" then Some(true)
    else if a == "o‘chir" || a == "ochir" || a == "off" then Some(false)
    else None
  }

  /** `_toggle`'s reading of its argument: `_norm_arg` (strip, then
      lower-case, the same normalisation as a stored bad word) and then the
      accepted words. */
  function ToggleValue(arg: string): Option<bool> {
    ToggleWord(NormWord(arg))
  }

  /** The reading ignores padding and letter case: an argument reads the
      same as its normal form. */
  lemma ToggleNormalised(arg: string)
    ensures ToggleValue(arg) == ToggleValue(NormWord(arg))
  {
    NormWordIdempotent(arg);
  }

  lemma NormalKept(w: string)
    requires IsNormal(w)
    ensures NormWord(w) == w
  {
    NormalIsFixed(w);
  }

  /** `yoq` switches on. */
  lemma ToggleYoqWord(w: string)
    requires w == "yoq"
    ensures ToggleValue(w) == Some(true)
  {
    assert IsNormal(w);
    NormalKept(w);
    assert ToggleWord(w) == Some(true);
  }

  /** `on` switches on. */
  lemma ToggleOnWord(w: string)
    requires w == "on"
    ensures ToggleValue(w) == Some(true)
  {
    assert IsNormal(w);
    NormalKept(w);
    assert ToggleWord(w) == Some(true);
  }

  /** `o‘chir` (with the Uzbek turned comma) switches off. */
  lemma ToggleOchirWord(w: string)
    requires w == "o‘chir"
    ensures ToggleValue(w) == Some(false)
  {
    assert IsNormal(w);
    NormalKept(w);
    assert ToggleWord(w) == Some(false);
  }

  /** `ochir` switches off. */
  lemma ToggleOchirAscii(w: string)
    requires w == "ochir"
    ensures ToggleValue(w) == Some(false)
  {
    assert IsNormal(w);
    NormalKept(w);
    assert ToggleWord(w) == Some(false);
  }

  /** `off` switches off. */
  lemma ToggleOffWord(w: string)
    requires w == "off"
    ensures ToggleValue(w) == Some(false)
  {
    assert IsNormal(w);
    NormalKept(w);
    assert ToggleWord(w) == Some(false);
  }

  // --------------------------------------------------------------- channel

  predicate IsChannelChar(c: char) {
    IsAsciiAlnum(c) || c == '_'
  }

  /** `[A-Za-z0-9_]{5,}`. */
  predicate ChannelName(b: string) {
    |b| >= 5 && forall i :: 0 <= i < |b| ==> IsChannelChar(b[i])
  }

  /** `CHANNEL_RE.match`, `^@?[A-Za-z0-9_]{5,}$`, on a stripped argument
      (which cannot end in the newline `$` would also allow). */
  predicate ChannelOk(ch: string) {
    ChannelName(ch) || (ch != [] && ch[0] == '@' && ChannelName(ch[1..]))
  }

  /** `s.lstrip("@")`. */
  function DropAts(s: string): (r: string)
    ensures r == [] || r[0] != '@'
    ensures |r| <= |s|
  {
    if s != [] && s[0] == '@' then DropAts(s[1..]) else s
  }

  /** `/set`: the channel name stored, or None when the command only replies.
      The stored name carries no `@` and has at least five characters. */
  function ChannelArg(text: string): (r: Option<string>)
    ensures r.Some? ==> ChannelName(r.value) && '@' !in r.value
  {
    match ArgOf(text)
    case None => None
    case Some(a) =>
      var ch := Strip(a);
      if ChannelOk(ch) then
        DropAtsName(ch);
        ChannelNameNoAt(DropAts(ch));
        Some(DropAts(ch))
      else None
  }

  /** A name that passes the check loses at most its one leading `@`. */
  lemma DropAtsName(ch: string)
    requires ChannelOk(ch)
    ensures DropAts(ch) == if ChannelName(ch) then ch else ch[1..]
  {
    assert !IsChannelChar('@');
    if !ChannelName(ch) {
      assert ch[1..][0] != '@' by { assert IsChannelChar(ch[1..][0]); }
    }
  }

  lemma ChannelNameNoAt(n: string)
    requires ChannelName(n)
    ensures '@' !in n
  {
    forall i | 0 <= i < |n| ensures n[i] != '@' {
      assert IsChannelChar(n[i]);
    }
  }

  lemma ChannelNameStripped(n: string)
    requires ChannelName(n)
    ensures Strip(n) == n && !IsSpace(n[0])
  {
    assert IsStripped(n) by {
      assert IsChannelChar(n[0]) && IsChannelChar(n[|n| - 1]);
    }
  }

  /** `/set name` links the channel `name`. */
  lemma ChannelCommand(cmd: string, name: string)
    requires cmd != [] && NoSpace(cmd)
    requires ChannelName(name)
    ensures ChannelArg(cmd + [' '] + name) == Some(name)
  {
    var text := cmd + [' '] + name;
    ChannelArgument(cmd, name);
    ChannelArgOf(text, name);
    DropAtsPlain(name);
  }

  lemma ChannelArgument(cmd: string, name: string)
    requires cmd != [] && NoSpace(cmd)
    requires ChannelName(name)
    ensures ArgOf(cmd + [' '] + name) == Some(name) && Strip(name) == name
  {
    ChannelNameStripped(name);
    ArgOfCommand(cmd, name);
  }

  /** A valid name has no `@` to drop. */
  lemma DropAtsPlain(name: string)
    requires ChannelName(name)
    ensures ChannelOk(name) && DropAts(name) == name
  {
    assert IsChannelChar(name[0]);
  }

  /** `/set` on an argument with nothing to strip. */
  lemma ChannelArgOf(text: string, a: string)
    requires ArgOf(text) == Some(a) && Strip(a) == a
    ensures ChannelArg(text) == if ChannelOk(a) then Some(DropAts(a)) else None
  {
  }

  /** `/set @name` links the channel `name` too. */
  lemma ChannelCommandAt(cmd: string, name: string)
    requires cmd != [] && NoSpace(cmd)
    requires ChannelName(name)
    ensures ChannelArg(cmd + [' '] + (['@'] + name)) == Some(name)
  {
    var at := ['@'] + name;
    assert at[1..] == name;
    assert !IsChannelChar(at[0]);
    assert IsStripped(at) by {
      assert at[|at| - 1] == name[|name| - 1];
      assert IsChannelChar(name[|name| - 1]);
    }
    ArgOfCommand(cmd, at);
    DropAtsName(at);
  }

  /** `/set` with a name of four characters is refused. */
  lemma ChannelTooShort(cmd: string, name: string)
    requires cmd != [] && NoSpace(cmd)
    requires |name| == 4 && forall i :: 0 <= i < 4 ==> IsChannelChar(name[i])
    ensures ChannelArg(cmd + [' '] + name) == None
  {
    assert IsChannelChar(name[0]) && IsChannelChar(name[3]);
    assert !ChannelOk(name) by {
      assert name[0] != '@';
    }
    ShortArgument(cmd, name);
    ChannelArgOf(cmd + [' '] + name, name);
  }

  lemma ShortArgument(cmd: string, name: string)
    requires cmd != [] && NoSpace(cmd)
    requires |name| == 4 && IsChannelChar(name[0]) && IsChannelChar(name[3])
    ensures ArgOf(cmd + [' '] + name) == Some(name) && Strip(name) == name
  {
    assert IsStripped(name);
    ArgOfCommand(cmd, name);
  }

  // -------------------------------------------------------------- force add

  /** `/add`: `off` switches force-add off; a digit string switches it on
      with that many required invites; anything else only replies. The
      argument is compared as given, without stripping. */
  function ForceAddArg(text: string): (r: Option<(bool, int)>)
    ensures r.Some? && r.value.0 ==> r.value.1 >= 0
  {
    match ArgOf(text)
    case None => None
    case Some(a) =>
      if a == "off" then Some((false, 0))
      else if IsDigits(a) then Some((true, ValueOf(a)))
      else None
  }

  /** `/add n` requires `n` invites; `/add off` switches force-add off. */
  lemma ForceAddCommand(cmd: string, n: nat)
    requires cmd != [] && NoSpace(cmd)
    ensures ForceAddArg(cmd + [' '] + ToDecimal(n)) == Some((true, n))
    ensures ForceAddArg(cmd + [' '] + "off") == Some((false, 0))
  {
    ArgOfCommand(cmd, ToDecimal(n));
    ValueOfToDecimal(n);
    ArgOfCommand(cmd, "off");
  }

  // -------------------------------------------------------------- commands

  /** A settings command as the admin typed it. */
  datatype Cmd =
    | SetChannel(text: string)         // /set
    | Unlink                           // /unlink
    | Number(c: NumberCmd, text: string)
    | Toggle(sw: Switch, text: string)
    | ForceAdd(text: string)           // /add
    | ForceText(text: string)          // /textforce

  /** The settings a command leaves, or None when it only replies. Each
      command writes its own fields and no other (see the contract of
      each case). */
  function Apply(s: ChatSettings, cmd: Cmd): Option<ChatSettings> {
    match cmd
    case SetChannel(text) => ApplyChannel(s, text)
    case Unlink => Some(s.(linkedChannel := ""))
    case Number(c, text) => ApplyNumber(s, c, text)
    case Toggle(sw, text) => ApplyToggle(s, sw, text)
    case ForceAdd(text) => ApplyForceAdd(s, text)
    case ForceText(text) => ApplyForceText(s, text)
  }

  /** `/set`: a valid channel name is linked. */
  function ApplyChannel(s: ChatSettings, text: string): (r: Option<ChatSettings>)
    ensures r.Some? ==>
      ChannelName(r.value.linkedChannel) && r.value.(linkedChannel := s.linkedChannel) == s
  {
    match ChannelArg(text)
    case None => None
    case Some(ch) => Some(s.(linkedChannel := ch))
  }

  /** A numeric command: a value in range is stored in its own column. */
  function ApplyNumber(s: ChatSettings, c: NumberCmd, text: string): (r: Option<ChatSettings>)
    ensures r.Some? ==>
      Lo(c) <= NumberOf(r.value, c) <= Hi(c) && WithNumber(r.value, c, NumberOf(s, c)) == s
  {
    match ReadNumber(c, text)
    case None => None
    case Some(v) => WithNumberRestores(s, c, v); Some(WithNumber(s, c, v))
  }

  /** `/add`: force-add switched off, or on with the required count. */
  function ApplyForceAdd(s: ChatSettings, text: string): (r: Option<ChatSettings>)
    ensures r.Some? <==> ForceAddArg(text).Some?
    ensures r.Some? ==>
      r.value.forceAddEnabled == ForceAddArg(text).value.0
      && r.value.(forceAddEnabled := s.forceAddEnabled, forceAddRequired := s.forceAddRequired) == s
    ensures r.Some? && r.value.forceAddEnabled ==> r.value.forceAddRequired == ForceAddArg(text).value.1 >= 0
    ensures r.Some? && !r.value.forceAddEnabled ==> r.value.forceAddRequired == s.forceAddRequired
  {
    match ForceAddArg(text)
    case None => None
    case Some(p) =>
      if p.0 then Some(s.(forceAddEnabled := true, forceAddRequired := p.1))
      else Some(s.(forceAddEnabled := false))
  }

  /** `/textforce`: the stripped argument becomes the prompt. */
  function ApplyForceText(s: ChatSettings, text: string): (r: Option<ChatSettings>)
    ensures r.Some? ==> r.value.forceText != [] && r.value.(forceText := s.forceText) == s
  {
    match ArgOf(text)
    case None => None
    case Some(a) =>
      assert Strip(a) != [] by { assert !IsSpace(a[0]); }
      Some(s.(forceText := Strip(a)))
  }

  /** `_toggle`: the argument read as a switch value, stored in `sw`. */
  function ApplyToggle(s: ChatSettings, sw: Switch, text: string): (r: Option<ChatSettings>)
    ensures r.Some? ==> WithSwitch(r.value, sw, SwitchOf(s, sw)) == s
  {
    match ArgOf(text)
    case None => None
    case Some(a) =>
      match ToggleValue(a)
      case None => None
      case Some(b) => WithSwitchRestores(s, sw, b); Some(WithSwitch(s, sw, b))
  }

  /** A toggle command with an accepted word sets exactly that switch. */
  lemma ToggleCommand(s: ChatSettings, sw: Switch, cmd: string, arg: string, b: bool)
    requires cmd != [] && NoSpace(cmd)
    requires arg != [] && !IsSpace(arg[0]) && ToggleValue(arg) == Some(b)
    ensures ApplyToggle(s, sw, cmd + [' '] + arg) == Some(WithSwitch(s, sw, b))
  {
    ArgOfCommand(cmd, arg);
  }

  /** The `chat_settings` table: one row per chat. */
  class SettingsTable {
    var rows: map<int, ChatSettings>

    constructor ()
      ensures rows == map[]
    {
      rows := map[];
    }

    /** `get_or_create_settings`: the stored row, or a new row of defaults. */
    method GetOrCreate(chatId: int) returns (s: ChatSettings)
      modifies this
      ensures s == Get(old(rows), chatId, Defaults)
      ensures rows == old(rows)[chatId := s]
    {
      s := Get(rows, chatId, Defaults);
      rows := rows[chatId := s];
    }

    /** `update_settings`: the row must exist (`scalar_one`); without one the
        call fails and nothing changes. */
    method Update(chatId: int, s: ChatSettings) returns (ok: bool)
      modifies this
      ensures ok <==> chatId in old(rows)
      ensures ok ==> rows == old(rows)[chatId := s]
      ensures !ok ==> rows == old(rows)
    {
      ok := chatId in rows;
      if ok {
        rows := rows[chatId := s];
      }
    }
  }

  /** A settings command handler: a caller who may not manage the bot
      changes nothing, a command that only replies changes nothing, and an
      accepted command rewrites the chat's row with its fields. */
  method RunCommand(chatId: int, allowed: bool, cmd: Cmd, table: SettingsTable) returns (saved: bool)
    modifies table
    ensures saved <==> allowed && chatId in old(table.rows) && Apply(old(table.rows)[chatId], cmd).Some?
    ensures saved ==> table.rows == old(table.rows)[chatId := Apply(old(table.rows)[chatId], cmd).value]
    ensures !saved ==> table.rows == old(table.rows)
  {
    saved := false;
    if !allowed || chatId !in table.rows {
      return;
    }
    var next := Apply(table.rows[chatId], cmd);
    if next.Some? {
      saved := table.Update(chatId, next.value);
    }
  }

  // -------------------------------------------------------- anti-raid panel

  /** Python's `int(s)` on ASCII text: surrounding whitespace, an optional
      sign, then decimal digits. */
  function PyInt(s: string): (r: Option<int>)
  {
    var t := Strip(s);
    if t != [] && (t[0] == '-' || t[0] == '+') then
      if IsDigits(t[1..]) then
        var v: int := ValueOf(t[1..]);
        Some(if t[0] == '-' then -v else v)
      else None
    else if IsDigits(t) then Some(ValueOf(t))
    else None
  }

  lemma SignedStripped(c: char, d: string)
    requires (c == '-' || c == '+') && IsDigits(d)
    ensures Strip([c] + d) == [c] + d
  {
    var t := [c] + d;
    assert IsStripped(t) by {
      assert t[0] == c;
      assert t[|t| - 1] == d[|d| - 1];
      assert IsDigit(d[|d| - 1]);
    }
  }

  /** `int(str(n))`, `int("-" + str(n))` and `int("+" + str(n))`. */
  lemma PyIntDecimal(n: nat)
    ensures PyInt(ToDecimal(n)) == Some(n)
    ensures PyInt("-" + ToDecimal(n)) == Some(-(n as int))
    ensures PyInt("+" + ToDecimal(n)) == Some(n)
  {
    PyIntUnsigned(n);
    PyIntSigned('-', n);
    PyIntSigned('+', n);
  }

  lemma PyIntUnsigned(n: nat)
    ensures PyInt(ToDecimal(n)) == Some(n)
  {
    var d := ToDecimal(n);
    DigitsStripped(d);
    ValueOfToDecimal(n);
    assert IsDigit(d[0]);
  }

  lemma PyIntSigned(sign: char, n: nat)
    requires sign == '-' || sign == '+'
    ensures PyInt([sign] + ToDecimal(n)) == Some(if sign == '-' then -(n as int) else n)
  {
    var d := ToDecimal(n);
    ValueOfToDecimal(n);
    SignedStripped(sign, d);
    assert ([sign] + d)[1..] == d;
  }

  /** What a press of an `ar:<key>:<delta>` button asks for. */
  datatype Press = BadButton | BadValue | TurnOff | Shift(key: string, delta: int)

  /** `cb_antiraidpanel`'s reading of the callback data. */
  function ReadPress(data: string): Press {
    var parts := Split(data, ':');
    if |parts| != 3 then BadButton
    else if parts[1] == "limit" && parts[2] == "set0" then TurnOff
    else match PyInt(parts[2]) case None => BadValue case Some(d) => Shift(parts[1], d)
  }

  /** Callback data is refused as a bad button exactly when it does not
      hold two colons. */
  lemma BadButtonIffNotTwoColons(data: string)
    ensures ReadPress(data).BadButton? <==> multiset(data)[':'] != 2
  {
    SplitCount(data, ':');
  }

  /** The `⛔ OFF` button, `ar:limit:set0`, switches the detector off. */
  lemma TurnOffButton(ar: string, limit: string, set0: string)
    requires ar == "ar" && limit == "limit" && set0 == "set0"
    ensures ReadPress(Join([ar, limit, set0], ':')) == TurnOff
  {
    assert ':' !in ar && ':' !in limit && ':' !in set0;
    SplitJoin([ar, limit, set0], ':');
  }

  lemma SignedNoColon(sign: char, n: nat)
    requires sign == '-' || sign == '+'
    ensures ':' !in [sign] + ToDecimal(n)
  {
    var d := ToDecimal(n);
    var t := [sign] + d;
    forall i | 0 <= i < |t| ensures t[i] != ':' {
      if i > 0 {
        assert t[i] == d[i - 1];
        assert IsDigit(d[i - 1]);
      }
    }
  }

  /** A button `ar:<key>:-n` or `ar:<key>:+n` asks to shift `key` by `-n`
      or `n`; the keyboard's six shift buttons are of this form. */
  lemma ShiftButton(ar: string, key: string, sign: char, n: nat)
    requires ar == "ar" && ':' !in key
    requires sign == '-' || sign == '+'
    ensures ReadPress(Join([ar, key, [sign] + ToDecimal(n)], ':')) ==
      Shift(key, if sign == '-' then -(n as int) else n)
  {
    var t := [sign] + ToDecimal(n);
    assert ':' !in ar;
    SignedNoColon(sign, n);
    SplitJoin([ar, key, t], ':');
    assert t != "set0" by { assert t[0] == sign; }
    PyIntSigned(sign, n);
    ShiftPress(Join([ar, key, t], ':'), ar, key, t);
  }

  /** Data of three fields other than `limit:set0` asks for a shift by the
      value of its third field. */
  lemma ShiftPress(data: string, a: string, key: string, v: string)
    requires Split(data, ':') == [a, key, v] && v != "set0" && PyInt(v).Some?
    ensures ReadPress(data) == Shift(key, PyInt(v).value)
  {
  }

  /** One panel shift: the field moves by `d` and is clamped into its
      range; a key other than `limit`, `win` or `close` changes nothing. */
  function Shifted(s: ChatSettings, key: string, d: int): (r: ChatSettings)
  {
    if key == "limit" then s.(raidLimit := Max(0, Min(5000, s.raidLimit + d)))
    else if key == "win" then s.(raidWindowMin := Max(1, Min(60, s.raidWindowMin + d)))
    else if key == "close" then s.(raidCloseMin := Max(1, Min(180, s.raidCloseMin + d)))
    else s
  }

  /** A `limit` shift keeps the limit in 0..5000 and moves no other field. */
  lemma LimitShiftFrame(s: ChatSettings, key: string, d: int)
    requires key == "limit"
    ensures 0 <= Shifted(s, key, d).raidLimit <= 5000
    ensures Shifted(s, key, d).(raidLimit := s.raidLimit) == s
  {
  }

  /** A `win` shift keeps the window in 1..60 and moves no other field. */
  lemma WindowShiftFrame(s: ChatSettings, key: string, d: int)
    requires key == "win"
    ensures 1 <= Shifted(s, key, d).raidWindowMin <= 60
    ensures Shifted(s, key, d).(raidWindowMin := s.raidWindowMin) == s
  {
  }

  /** A `close` shift keeps the close time in 1..180 and moves no other field. */
  lemma CloseShiftFrame(s: ChatSettings, key: string, d: int)
    requires key == "close"
    ensures 1 <= Shifted(s, key, d).raidCloseMin <= 180
    ensures Shifted(s, key, d).(raidCloseMin := s.raidCloseMin) == s
  {
  }

  /** Any other key changes nothing. */
  lemma OtherShiftFrame(s: ChatSettings, key: string, d: int)
    requires key != "limit" && key != "win" && key != "close"
    ensures Shifted(s, key, d) == s
  {
  }

  /** A `limit` shift that stays inside 0..5000 moves the limit by
      exactly `d`; one that would leave it stops at the nearer end. */
  lemma LimitShift(s: ChatSettings, key: string, d: int)
    requires key == "limit"
    ensures 0 <= s.raidLimit + d <= 5000 ==> Shifted(s, key, d).raidLimit == s.raidLimit + d
    ensures s.raidLimit + d < 0 ==> Shifted(s, key, d).raidLimit == 0
    ensures s.raidLimit + d > 5000 ==> Shifted(s, key, d).raidLimit == 5000
  {
  }

  /** The same for the `win` shift and 1..60. */
  lemma WindowShift(s: ChatSettings, key: string, d: int)
    requires key == "win"
    ensures 1 <= s.raidWindowMin + d <= 60 ==> Shifted(s, key, d).raidWindowMin == s.raidWindowMin + d
    ensures s.raidWindowMin + d < 1 ==> Shifted(s, key, d).raidWindowMin == 1
    ensures s.raidWindowMin + d > 60 ==> Shifted(s, key, d).raidWindowMin == 60
  {
  }

  /** The same for the `close` shift and 1..180. */
  lemma CloseShift(s: ChatSettings, key: string, d: int)
    requires key == "close"
    ensures 1 <= s.raidCloseMin + d <= 180 ==> Shifted(s, key, d).raidCloseMin == s.raidCloseMin + d
    ensures s.raidCloseMin + d < 1 ==> Shifted(s, key, d).raidCloseMin == 1
    ensures s.raidCloseMin + d > 180 ==> Shifted(s, key, d).raidCloseMin == 180
  {
  }

  /** The settings a press leaves. */
  function AfterPress(s: ChatSettings, p: Press): ChatSettings {
    match p
    case TurnOff => s.(raidLimit := 0)
    case Shift(key, d) => Shifted(s, key, d)
    case _ => s
  }

  /** `cb_antiraidpanel`. A caller who may not manage the chat changes
      nothing. Otherwise the chat's row is created if missing and the press
      is applied to it; `set0` also forgets the chat's anti-raid state. */
  method PressPanel(chatId: int, allowed: bool, data: string, table: SettingsTable, raid: Raid.AntiRaid)
      returns (press: Option<Press>)
    requires raid.Valid()
    modifies table, raid
    ensures raid.Valid()
    ensures !allowed ==> press == None && table.rows == old(table.rows) && raid.chats == old(raid.chats)
    ensures allowed ==> press == Some(ReadPress(data))
    ensures allowed ==> table.rows == old(table.rows)[chatId :=
      AfterPress(Get(old(table.rows), chatId, Defaults), ReadPress(data))]
    ensures allowed && ReadPress(data).TurnOff? ==> raid.chats == old(raid.chats) - {chatId}
    ensures allowed && !ReadPress(data).TurnOff? ==> raid.chats == old(raid.chats)
  {
    if !allowed {
      return None;
    }
    var s := table.GetOrCreate(chatId);
    var p := ReadPress(data);
    press := Some(p);
    StorePress(chatId, s, p, table);
    if p.TurnOff? {
      raid.Clear(chatId);
    }
  }

  /** The row write of `cb_antiraidpanel`: `set0` stores a limit of 0, a
      known key stores the shifted value, anything else writes nothing. */
  method StorePress(chatId: int, s: ChatSettings, p: Press, table: SettingsTable)
    requires chatId in table.rows && table.rows[chatId] == s
    modifies table
    ensures table.rows == old(table.rows)[chatId := AfterPress(s, p)]
  {
    match p {
      case BadButton =>
        assert table.rows == table.rows[chatId := s];
      case BadValue =>
        assert table.rows == table.rows[chatId := s];
      case TurnOff =>
        var _ := table.Update(chatId, s.(raidLimit := 0));
      case Shift(key, d) =>
        if key == "limit" || key == "win" || key == "close" {
          var _ := table.Update(chatId, Shifted(s, key, d));
        } else {
          assert Shifted(s, key, d) == s;
          assert table.rows == table.rows[chatId := s];
        }
    }
  }

  // -------------------------------------------------------------- bad words

  /** `/yomonqosh` as written: the argument stripped and lower-cased, kept
      when it is 2 to 30 characters long. */
  function NewWordAsWritten(text: string): (r: Option<string>)
    ensures r.Some? ==> 2 <= |r.value| <= 30 && NormWord(r.value) == r.value
  {
    match ArgOf(text)
    case None => None
    case Some(a) =>
      var w := NormWord(a);
      NormWordIdempotent(a);
      if 2 <= |w| <= 30 then Some(w) else None
  }

  /** A word holding a character that is neither a word character nor a
      space (an ASCII apostrophe, as Uzbek words often have) is accepted
      and saved, yet no message at all matches it: the matcher turns that
      character of every message into a space. */
  lemma PunctuatedWordAccepted(cmd: string, w: string, j: int, t: string)
    requires cmd != [] && NoSpace(cmd)
    requires IsNormal(w) && 2 <= |w| <= 30
    requires 0 <= j < |w| && !IsWordChar(w[j]) && w[j] != ' '
    ensures NewWordAsWritten(cmd + [' '] + w) == Some(w)
    ensures !Matches(WordsForm(t), w)
  {
    assert !IsSpace(w[0]);
    ArgOfCommand(cmd, w);
    NormalIsFixed(w);
    PunctuatedNeverMatches(t, w, j);
  }

  /** `/yomonqosh so'k` is such a command. */
  lemma ApostropheWord(w: string)
    requires w == "so'k"
    ensures IsNormal(w) && 2 <= |w| <= 30
    ensures !IsWordChar(w[2]) && w[2] != ' '
    ensures NoSpace("/yomonqosh")
  {
  }

  /** Every character of `NonWordToSpace(s)` is a space or a character of `s`. */
  lemma {:induction false} NonWordToSpaceChars(s: string)
    ensures forall i :: 0 <= i < |NonWordToSpace(s)| ==>
      NonWordToSpace(s)[i] == ' ' || NonWordToSpace(s)[i] in s
    decreases |s|
  {
    if s != [] {
      var d := if IsWordChar(s[0]) then 1 else NonWordRun(s);
      var t := s[d..];
      NonWordToSpaceChars(t);
      var r := NonWordToSpace(s);
      var c := NonWordToSpace(t);
      assert r == [r[0]] + c;
      forall i | 0 <= i < |r| ensures r[i] == ' ' || r[i] in s {
        if i > 0 && c[i - 1] != ' ' {
          assert r[i] == c[i - 1];
          SuffixMember(s, d, c[i - 1]);
        }
      }
    }
  }

  /** What occurs in a suffix of `s` occurs in `s`. */
  lemma SuffixMember(s: string, d: nat, x: char)
    requires d <= |s| && x in s[d..]
    ensures x in s
  {
    var k :| 0 <= k < |s| - d && s[d..][k] == x;
    assert s[d + k] == x;
  }

  predicate NoUpper(s: string) {
    forall i :: 0 <= i < |s| ==> !IsUpper(s[i])
  }

  lemma LowerNoUpper(t: string)
    ensures NoUpper(Lower(t))
  {
    forall i | 0 <= i < |t| ensures !IsUpper(Lower(t)[i]) {
      LowerCharFacts(t[i]);
    }
  }

  lemma NonWordToSpaceNoUpper(l: string)
    requires NoUpper(l)
    ensures NoUpper(NonWordToSpace(l))
  {
    NonWordToSpaceChars(l);
    var a := NonWordToSpace(l);
    forall i | 0 <= i < |a| ensures !IsUpper(a[i]) {
      if a[i] != ' ' {
        var k :| 0 <= k < |l| && l[k] == a[i];
      }
    }
  }

  lemma StripNoUpper(a: string)
    requires NoUpper(a)
    ensures NoUpper(Strip(a))
  {
    var r := Strip(a);
    var d := LeadingSpaces(a);
    forall i | 0 <= i < |r| ensures !IsUpper(r[i]) {
      assert r[i] == a[d + i];
    }
  }

  /** The matcher's form of a word is already stripped and lower-case. */
  lemma InnerIsNormal(t: string)
    ensures IsNormal(Inner(t))
  {
    var l := Lower(t);
    var a := NonWordToSpace(l);
    LowerNoUpper(t);
    NonWordToSpaceNoUpper(l);
    NonWordToSpaceShape(l);
    WordsAndSpacesSingleSpaced(a);
    CollapseFixed(a);
    var r := Strip(a);
    assert r == Inner(t);
    StripNoUpper(a);
    InnerTokenized(t);
    if r != [] {
      WordCharIsNotSpace(r[0]);
      WordCharIsNotSpace(r[|r| - 1]);
    }
  }

  /** `/yomonqosh` saving the word in the form the matcher compares: the
      argument lower-cased, with its non-word runs turned into single spaces
      and stripped, kept when 2 to 30 characters long. */
  function NewWord(text: string): (r: Option<string>)
    ensures r.Some? ==> 2 <= |r.value| <= 30
  {
    match ArgOf(text)
    case None => None
    case Some(a) =>
      var w := Inner(a);
      if 2 <= |w| <= 30 then Some(w) else None
  }

  /** A word saved this way is stored unchanged by `add_bad_word`. */
  lemma NewWordStored(text: string)
    requires NewWord(text).Some?
    ensures NormWord(NewWord(text).value) == NewWord(text).value
  {
    InnerIsNormal(ArgOf(text).value);
    NormalIsFixed(Inner(ArgOf(text).value));
  }

  /** A message that repeats the admin's argument is caught by the word
      saved from it. */
  lemma NewWordMatchesItself(text: string)
    requires NewWord(text).Some?
    ensures Matches(WordsForm(ArgOf(text).value), NewWord(text).value)
  {
    var a := ArgOf(text).value;
    var w := Inner(a);
    var r := WordsForm(a);
    assert OccursAt(r, [' '] + w + [' '], 0);
  }

  /** `/yomonqosh` as written: the stripped, lower-cased argument goes to
      `add_bad_word`, which normalises it once more and so keeps it as it
      is. Added exactly when the caller may manage the bot, the word is 2
      to 30 characters long and the chat does not hold it yet; no other
      table changes. `PunctuatedWordAccepted` shows that a word saved here
      may never match. */
  method AddWordCommand(chatId: int, allowed: bool, text: string, db: DB) returns (added: bool)
    requires db.Valid()
    modifies db
    ensures db.Valid()
    ensures added <==> allowed && NewWordAsWritten(text).Some?
                       && NewWordAsWritten(text).value !in old(db.Words(chatId))
    ensures added ==> db.badWords == old(db.badWords)[chatId := old(db.Words(chatId)) + [NewWordAsWritten(text).value]]
    ensures !added ==> db.badWords == old(db.badWords)
    ensures db.strikes == old(db.strikes) && db.adsHits == old(db.adsHits) && db.msgLogs == old(db.msgLogs)
    ensures db.forceProgress == old(db.forceProgress) && db.forcePriv == old(db.forcePriv)
    ensures db.chatBotAdmins == old(db.chatBotAdmins)
  {
    added := false;
    if !allowed {
      return;
    }
    var w := NewWordAsWritten(text);
    if w.None? {
      return;
    }
    added := db.AddBadWord(chatId, w.value);
  }

  /** `/yomonqosh` with the word saved in matcher form: the command hands
      its word to `add_bad_word`, which normalises it once more
      (`NewWordStored` shows that this changes nothing). Added exactly when
      the caller may manage the bot, the word is acceptable and the chat
      does not hold it yet; no other table changes, and
      `NewWordMatchesItself` shows that the saved word catches the text it
      was taken from. */
  method AddWordCommandFixed(chatId: int, allowed: bool, text: string, db: DB) returns (added: bool)
    requires db.Valid()
    modifies db
    ensures db.Valid()
    ensures added <==> allowed && NewWord(text).Some? && NewWord(text).value !in old(db.Words(chatId))
    ensures added ==> db.badWords == old(db.badWords)[chatId := old(db.Words(chatId)) + [NewWord(text).value]]
    ensures !added ==> db.badWords == old(db.badWords)
    ensures db.strikes == old(db.strikes) && db.adsHits == old(db.adsHits) && db.msgLogs == old(db.msgLogs)
    ensures db.forceProgress == old(db.forceProgress) && db.forcePriv == old(db.forcePriv)
    ensures db.chatBotAdmins == old(db.chatBotAdmins)
  {
    added := false;
    if !allowed {
      return;
    }
    var w := NewWord(text);
    if w.None? {
      return;
    }
    NewWordStored(text);
    added := db.AddBadWord(chatId, w.value);
  }

  /** `/yomondel`: removes the stripped, lower-cased argument; a bare
      command changes nothing. */
  method DeleteWordCommand(chatId: int, allowed: bool, text: string, db: DB)
    requires db.Valid()
    modifies db
    ensures db.Valid()
    ensures allowed && ArgOf(text).Some? ==>
      db.badWords == old(db.badWords)[chatId := Without(old(db.Words(chatId)), NormWord(ArgOf(text).value))]
    ensures !(allowed && ArgOf(text).Some?) ==> db.badWords == old(db.badWords)
    ensures db.strikes == old(db.strikes) && db.adsHits == old(db.adsHits) && db.msgLogs == old(db.msgLogs)
    ensures db.forceProgress == old(db.forceProgress) && db.forcePriv == old(db.forcePriv)
    ensures db.chatBotAdmins == old(db.chatBotAdmins)
  {
    var a := ArgOf(text);
    if !allowed || a.None? {
      return;
    }
    var w := NormWord(a.value);
    assert w != [] by {
      assert !IsSpace(a.value[0]);
      assert Strip(a.value) != [];
    }
    NormWordIdempotent(a.value);
    var _ := db.RemoveBadWord(chatId, w);
  }
}
