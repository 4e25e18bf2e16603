/** The message guard: the order in which a group message is checked
    against the chat's rules, the strike ladder that turns a repeated
    violation into a mute, the daily cap on advertising, and the join and
    member-update handlers. Platform answers (admin status, subscription,
    whether a mute went through) and clock readings are inputs. */
module Guard {
  import opened Common
  import opened Text
  import opened Window
  import opened Models
  import opened Moderation
  import opened Store
  import opened Words
  import Flood
  import Raid

  // ------------------------------------------------------------- inputs

  /** A group message: its chat, its sender (absent for anonymous senders),
      its text and caption, and where it comes from. */
  datatype Message = Message(
    chatId: int,
    sender: Option<int>,
    text: Option<string>,
    caption: Option<string>,
    origin: Origin)

  /** What the platform answers while the message is handled: whether the
      sender is a Telegram admin of the chat, whether they may manage the
      bot, the linked-channel subscription check (None when it cannot be
      made), and whether a restriction goes through. */
  datatype Probe = Probe(tgAdmin: bool, manager: bool, subscribed: Option<bool>, muteOk: bool)

  /** Clock readings: the monotonic clock of the flood detector, the wall
      clock in seconds and today's date as a day number. */
  datatype Clock = Clock(mono: int, wall: int, day: int)

  /** `_get_text`: the text, else the caption, else nothing. */
  function GetText(m: Message): (r: string)
    ensures r == [] <==> (m.text.None? || m.text.value == []) && (m.caption.None? || m.caption.value == [])
    ensures m.text.Some? && m.text.value != [] ==> r == m.text.value
    ensures (m.text.None? || m.text.value == []) && m.caption.Some? ==> r == m.caption.value
  {
    if m.text.Some? && m.text.value != [] then m.text.value
    else if m.caption.Some? && m.caption.value != [] then m.caption.value
    else []
  }

  // ------------------------------------------------------------ outcomes

  /** The rules that go through the strike ladder. */
  datatype Rule = Flooding | ChannelPost | SameText | Links | Arabic | Swearing

  /** The rule name the strike table is keyed by. */
  function RuleName(r: Rule): (name: string)
    ensures name != []
  {
    match r
    case Flooding => "antiflood"
    case ChannelPost => "channel"
    case SameText => "antisame"
    case Links => "links"
    case Arabic => "arab"
    case Swearing => "swear"
  }

  /** Distinct rules keep distinct strike rows. */
  lemma RuleNameInjective(a: Rule, b: Rule)
    ensures RuleName(a) == RuleName(b) <==> a == b
  {
  }

  /** Minutes of the mute each rule imposes at its second strike. */
  function MuteMinutes(r: Rule): (n: nat)
    ensures n >= 2
  {
    match r
    case Flooding => 2
    case ChannelPost => 60
    case SameText => 120
    case Links => 30
    case Arabic => 60
    case Swearing => 300
  }

  /** Strikes older than an hour are forgotten. */
  const StrikeWindowSec := 3600
  /** Minutes of the mute for going over the daily advertising limit. */
  const AdsMuteMinutes := 300
  /** Only the first 200 bad words of a chat are scanned. */
  const ScanLimit: nat := 200

  /** What happens to a message. */
  datatype Outcome =
    | Passed
    | ForcePrompt(required: int, added: int, need: int)
    | SubscribePrompt
    | Warned(rule: Rule)
    | Muted(rule: Rule, applied: bool)
    | AdsWarned(hits: int)
    | AdsMuted(applied: bool)

  /** The tables a message may read or write: the flood queues and the
      database rows (the bad-word list is read through `Signals`). */
  datatype Tables = Tables(
    flood: map<(int, int), seq<int>>,
    strikes: map<(int, int, string), Strike>,
    adsHits: map<(int, int, int), int>,
    msgLogs: map<(int, int), MsgLog>,
    forceProgress: map<(int, int), int>,
    forcePriv: set<(int, int)>)

  datatype Verdict = Verdict(outcome: Outcome, tables: Tables)

  // ------------------------------------------------------ strike ladder

  /** The stored strike of a (chat, user, rule), if any. */
  function StrikeOf(t: Tables, chatId: int, userId: int, rule: Rule): Option<Strike> {
    var key := (chatId, userId, RuleName(rule));
    if key in t.strikes then Some(t.strikes[key]) else None
  }

  /** `_handle_violation`: a manager is only warned and no strike is
      recorded; otherwise the strike is counted, the first warns and
      leaves the strike on record, and any later one mutes and clears the
      strike, whether or not the mute went through. */
  function Punish(rule: Rule, chatId: int, userId: int, p: Probe, wall: int, t: Tables): Verdict
  {
    if p.manager then Verdict(Warned(rule), t)
    else
      var key := (chatId, userId, RuleName(rule));
      var s := NextStrike(StrikeOf(t, chatId, userId, rule), wall, StrikeWindowSec);
      if s.count == 1 then Verdict(Warned(rule), t.(strikes := t.strikes[key := s]))
      else Verdict(Muted(rule, p.muteOk), t.(strikes := t.strikes - {key}))
  }

  /** Every stored strike counts at least one violation. */
  predicate StrikesPositive(t: Tables) {
    forall k :: k in t.strikes ==> t.strikes[k].count >= 1
  }

  /** The ladder of one rule: a non-manager is muted exactly when a strike
      of the same rule is on record from the last hour; a warning leaves a
      strike stamped now, a mute leaves none, and no other row changes. */
  lemma StrikeLadder(rule: Rule, chatId: int, userId: int, p: Probe, wall: int, t: Tables)
    requires StrikesPositive(t)
    ensures var v := Punish(rule, chatId, userId, p, wall, t);
      && (v.outcome.Muted? <==>
            !p.manager && StrikeOf(t, chatId, userId, rule).Some?
            && StrikeOf(t, chatId, userId, rule).value.lastAt >= wall - StrikeWindowSec)
      && (!p.manager && v.outcome.Warned? ==>
            v.tables.strikes == t.strikes[(chatId, userId, RuleName(rule)) := Strike(1, wall)])
      && (v.outcome.Muted? ==> v.tables.strikes == t.strikes - {(chatId, userId, RuleName(rule))})
      && (v.outcome.Warned? || v.outcome.Muted?)
      && v.tables == t.(strikes := v.tables.strikes)
      && StrikesPositive(v.tables)
  {
  }

  /** Managers are never punished: the verdict is a warning and the strike
      table is untouched. */
  lemma ManagerOnlyWarned(rule: Rule, chatId: int, userId: int, p: Probe, wall: int, t: Tables)
    requires p.manager
    ensures Punish(rule, chatId, userId, p, wall, t) == Verdict(Warned(rule), t)
  {
  }

  /** Two violations of a rule within the hour mute a non-manager, and the
      ladder starts over: the next violation only warns again. */
  lemma SecondStrikeMutes(rule: Rule, chatId: int, userId: int, p: Probe, w1: int, w2: int, w3: int, t: Tables)
    requires !p.manager && StrikeOf(t, chatId, userId, rule).None?
    requires w1 <= w2 <= w1 + StrikeWindowSec
    ensures var v1 := Punish(rule, chatId, userId, p, w1, t);
      var v2 := Punish(rule, chatId, userId, p, w2, v1.tables);
      var v3 := Punish(rule, chatId, userId, p, w3, v2.tables);
      v1.outcome == Warned(rule) && v2.outcome == Muted(rule, p.muteOk) && v3.outcome == Warned(rule)
  {
    var key := (chatId, userId, RuleName(rule));
    var v1 := Punish(rule, chatId, userId, p, w1, t);
    assert v1.tables.strikes[key] == Strike(1, w1);
    var v2 := Punish(rule, chatId, userId, p, w2, v1.tables);
    assert key !in v2.tables.strikes;
  }

  // ------------------------------------------------------------- stages

  function Key(m: Message): (int, int)
    requires m.sender.Some?
  {
    (m.chatId, m.sender.value)
  }

  /** Members the sender has added so far. */
  function Added(m: Message, t: Tables): int
    requires m.sender.Some?
  {
    Get(t.forceProgress, Key(m), 0)
  }

  /** Force-add holds the message back: the feature is on, the sender is
      neither a Telegram admin nor exempt, and has added fewer members than
      required. */
  predicate ForceBlocks(s: ChatSettings, m: Message, p: Probe, t: Tables)
    requires m.sender.Some?
  {
    s.forceAddEnabled && !p.tgAdmin && Key(m) !in t.forcePriv && Added(m, t) < s.forceAddRequired
  }

  /** The flood queue after this message is counted. */
  function FloodQueue(s: ChatSettings, m: Message, c: Clock, t: Tables): seq<int>
    requires m.sender.Some?
  {
    Evict(Get(t.flood, Key(m), []) + [c.mono], c.mono - s.floodWindowSec)
  }

  predicate FloodFires(s: ChatSettings, m: Message, c: Clock, t: Tables)
    requires m.sender.Some?
  {
    s.antifloodEnabled && |FloodQueue(s, m, c, t)| > s.floodMaxMsgs
  }

  /** The linked-channel check says the sender is not subscribed; an
      answer that could not be obtained lets the message through. */
  predicate SubscribeBlocks(s: ChatSettings, p: Probe) {
    s.linkedChannel != [] && p.subscribed == Some(false)
  }

  /** What the text classifiers say about a message: blank text, its
      fingerprint, channel origin, link, Arabic script, advertising, and a
      match of one of the chat's first 200 bad words. */
  datatype Signals = Signals(
    blank: bool,
    hash: string,
    channelPost: bool,
    link: bool,
    arabic: bool,
    ads: bool,
    swear: bool)

  /** The bad words the guard scans: the first 200 of the chat's list. */
  function Scanned(badWords: map<int, seq<string>>, chatId: int): (ws: seq<string>)
    ensures |ws| <= ScanLimit && |ws| <= |Get(badWords, chatId, [])|
    ensures ws == Get(badWords, chatId, [])[..|ws|]
    ensures |ws| < ScanLimit ==> ws == Get(badWords, chatId, [])
  {
    var all := Get(badWords, chatId, []);
    all[..Min(ScanLimit, |all|)]
  }

  /** The classifiers run on `_get_text` of the message. */
  function Sense(m: Message, digest: string -> string, badWords: map<int, seq<string>>): Signals {
    var text := GetText(m);
    Signals(
      blank := Strip(text) == [],
      hash := TextHash(digest, text),
      channelPost := IsChannelPost(m.origin),
      link := HasLink(text),
      arabic := HasArabic(text),
      ads := LooksLikeAds(text),
      swear := AnyMatch(WordsForm(text), Scanned(badWords, m.chatId)))
  }

  predicate ChannelFires(s: ChatSettings, g: Signals) {
    s.blockChannelPosts && g.channelPost
  }

  /** Anti-same looks at the message: the feature is on and the text is
      not blank. */
  predicate SameChecked(s: ChatSettings, g: Signals) {
    s.antisameEnabled && !g.blank
  }

  /** The sender's message log, or the one `get_or_create_msglog` makes. */
  function SameLog(m: Message, c: Clock, t: Tables): MsgLog
    requires m.sender.Some?
  {
    Get(t.msgLogs, Key(m), MsgLog("", c.wall))
  }

  /** The message repeats the last one: same fingerprint, and no more than
      `antisame_minutes` minutes have passed. */
  predicate SameFires(s: ChatSettings, m: Message, c: Clock, g: Signals, t: Tables)
    requires m.sender.Some?
  {
    && SameChecked(s, g)
    && SameLog(m, c, t).lastHash == g.hash
    && c.wall - SameLog(m, c, t).lastAt <= s.antisameMinutes * 60
  }

  predicate LinkFires(s: ChatSettings, g: Signals) {
    s.blockLinks && g.link
  }

  predicate ArabFires(s: ChatSettings, g: Signals) {
    s.blockArab && g.arabic
  }

  predicate AdsFires(s: ChatSettings, g: Signals) {
    s.blockAds && g.ads
  }

  predicate SwearFires(s: ChatSettings, g: Signals) {
    s.blockSwear && !g.blank && g.swear
  }

  /** `_process`: a message without a sender is ignored; otherwise the
      rules are tried in order and the first that fires decides. */
  function Decide(s: ChatSettings, m: Message, p: Probe, c: Clock, g: Signals, t: Tables): Verdict
  {
    if m.sender.None? then Verdict(Passed, t) else ForceStage(s, m, p, c, g, t)
  }

  function ForceStage(s: ChatSettings, m: Message, p: Probe, c: Clock, g: Signals, t: Tables): Verdict
    requires m.sender.Some?
  {
    if ForceBlocks(s, m, p, t) then
      var added := Added(m, t);
      Verdict(ForcePrompt(s.forceAddRequired, added, Max(0, s.forceAddRequired - added)), t)
    else FloodStage(s, m, p, c, g, t)
  }

  function FloodStage(s: ChatSettings, m: Message, p: Probe, c: Clock, g: Signals, t: Tables): Verdict
    requires m.sender.Some?
  {
    if !s.antifloodEnabled then SubscribeStage(s, m, p, c, g, t)
    else
      var q := FloodQueue(s, m, c, t);
      var t1 := t.(flood := t.flood[Key(m) := q]);
      if |q| > s.floodMaxMsgs then Punish(Flooding, m.chatId, m.sender.value, p, c.wall, t1)
      else SubscribeStage(s, m, p, c, g, t1)
  }

  function SubscribeStage(s: ChatSettings, m: Message, p: Probe, c: Clock, g: Signals, t: Tables): Verdict
    requires m.sender.Some?
  {
    if SubscribeBlocks(s, p) then Verdict(SubscribePrompt, t)
    else ChannelStage(s, m, p, c, g, t)
  }

  function ChannelStage(s: ChatSettings, m: Message, p: Probe, c: Clock, g: Signals, t: Tables): Verdict
    requires m.sender.Some?
  {
    if ChannelFires(s, g) then Punish(ChannelPost, m.chatId, m.sender.value, p, c.wall, t)
    else SameStage(s, m, p, c, g, t)
  }

  /** A repeat is punished and the log is left as it was found (or as it was
      created); any other message becomes the new fingerprint. */
  function SameStage(s: ChatSettings, m: Message, p: Probe, c: Clock, g: Signals, t: Tables): Verdict
    requires m.sender.Some?
  {
    if !SameChecked(s, g) then LinkStage(s, m, p, c, g, t)
    else if SameFires(s, m, c, g, t) then
      Punish(SameText, m.chatId, m.sender.value, p, c.wall, t.(msgLogs := t.msgLogs[Key(m) := SameLog(m, c, t)]))
    else
      LinkStage(s, m, p, c, g, t.(msgLogs := t.msgLogs[Key(m) := MsgLog(g.hash, c.wall)]))
  }

  function LinkStage(s: ChatSettings, m: Message, p: Probe, c: Clock, g: Signals, t: Tables): Verdict
    requires m.sender.Some?
  {
    if LinkFires(s, g) then Punish(Links, m.chatId, m.sender.value, p, c.wall, t)
    else if ArabFires(s, g) then Punish(Arabic, m.chatId, m.sender.value, p, c.wall, t)
    else AdsStage(s, m, p, c, g, t)
  }

  /** Advertising skips the ladder: the day's counter goes up, and the
      message is only warned about until the counter passes the limit. */
  function AdsStage(s: ChatSettings, m: Message, p: Probe, c: Clock, g: Signals, t: Tables): Verdict
    requires m.sender.Some?
  {
    if AdsFires(s, g) then
      var key := (m.chatId, m.sender.value, c.day);
      var hits := Get(t.adsHits, key, 0) + 1;
      var t1 := t.(adsHits := Bump(t.adsHits, key, 1));
      if hits <= s.adsDailyLimit then Verdict(AdsWarned(hits), t1) else Verdict(AdsMuted(p.muteOk), t1)
    else if SwearFires(s, g) then Punish(Swearing, m.chatId, m.sender.value, p, c.wall, t)
    else Verdict(Passed, t)
  }

  // ------------------------------------------------------------ properties

  /** The checks of `_process`, in order. */
  datatype Step = ForceStep | FloodStep | SubscribeStep | ChannelStep | SameStep | LinkStep | ArabStep | AdsStep | SwearStep

  /** The check an outcome comes from. */
  function StepOf(o: Outcome): Option<Step> {
    match o
    case Passed => None
    case ForcePrompt(_, _, _) => Some(ForceStep)
    case SubscribePrompt => Some(SubscribeStep)
    case AdsWarned(_) => Some(AdsStep)
    case AdsMuted(_) => Some(AdsStep)
    case Warned(r) => Some(RuleStep(r))
    case Muted(r, _) => Some(RuleStep(r))
  }

  function RuleStep(r: Rule): Step {
    match r
    case Flooding => FloodStep
    case ChannelPost => ChannelStep
    case SameText => SameStep
    case Links => LinkStep
    case Arabic => ArabStep
    case Swearing => SwearStep
  }

  /** The checks after anti-same, which look only at the text. */
  function TailStep(s: ChatSettings, g: Signals): Option<Step> {
    if LinkFires(s, g) then Some(LinkStep)
    else if ArabFires(s, g) then Some(ArabStep)
    else if AdsFires(s, g) then Some(AdsStep)
    else if SwearFires(s, g) then Some(SwearStep)
    else None
  }

  /** The first check that objects to the message, every check judged on
      the tables as they were when the message arrived. */
  function FirstStep(s: ChatSettings, m: Message, p: Probe, c: Clock, g: Signals, t: Tables): Option<Step>
    requires m.sender.Some?
  {
    if ForceBlocks(s, m, p, t) then Some(ForceStep)
    else if FloodFires(s, m, c, t) then Some(FloodStep)
    else if SubscribeBlocks(s, p) then Some(SubscribeStep)
    else if ChannelFires(s, g) then Some(ChannelStep)
    else if SameFires(s, m, c, g, t) then Some(SameStep)
    else TailStep(s, g)
  }

  /** The configuration rows are only read. */
  predicate SameConfig(a: Tables, b: Tables) {
    a.forceProgress == b.forceProgress && a.forcePriv == b.forcePriv
  }

  lemma PunishFacts(rule: Rule, chatId: int, userId: int, p: Probe, wall: int, t: Tables)
    ensures StepOf(Punish(rule, chatId, userId, p, wall, t).outcome) == Some(RuleStep(rule))
    ensures Punish(rule, chatId, userId, p, wall, t).tables == t.(strikes := Punish(rule, chatId, userId, p, wall, t).tables.strikes)
  {
  }

  lemma TailFacts(s: ChatSettings, m: Message, p: Probe, c: Clock, g: Signals, t: Tables)
    requires m.sender.Some?
    ensures StepOf(LinkStage(s, m, p, c, g, t).outcome) == TailStep(s, g)
    ensures var t1 := LinkStage(s, m, p, c, g, t).tables;
      SameConfig(t, t1) && t1.flood == t.flood && t1.msgLogs == t.msgLogs
  {
    PunishFacts(Links, m.chatId, m.sender.value, p, c.wall, t);
    PunishFacts(Arabic, m.chatId, m.sender.value, p, c.wall, t);
    PunishFacts(Swearing, m.chatId, m.sender.value, p, c.wall, t);
  }

  lemma SameFacts(s: ChatSettings, m: Message, p: Probe, c: Clock, g: Signals, t: Tables)
    requires m.sender.Some?
    ensures StepOf(SameStage(s, m, p, c, g, t).outcome)
         == if SameFires(s, m, c, g, t) then Some(SameStep) else TailStep(s, g)
    ensures SameConfig(t, SameStage(s, m, p, c, g, t).tables)
  {
    if !SameChecked(s, g) {
      TailFacts(s, m, p, c, g, t);
    } else if SameFires(s, m, c, g, t) {
      PunishFacts(SameText, m.chatId, m.sender.value, p, c.wall, t.(msgLogs := t.msgLogs[Key(m) := SameLog(m, c, t)]));
    } else {
      TailFacts(s, m, p, c, g, t.(msgLogs := t.msgLogs[Key(m) := MsgLog(g.hash, c.wall)]));
    }
  }

  /** From the subscription check on, the outcome is the first objection. */
  lemma SubscribeFacts(s: ChatSettings, m: Message, p: Probe, c: Clock, g: Signals, t: Tables)
    requires m.sender.Some?
    ensures StepOf(SubscribeStage(s, m, p, c, g, t).outcome)
         == if SubscribeBlocks(s, p) then Some(SubscribeStep)
            else if ChannelFires(s, g) then Some(ChannelStep)
            else if SameFires(s, m, c, g, t) then Some(SameStep)
            else TailStep(s, g)
    ensures SameConfig(t, SubscribeStage(s, m, p, c, g, t).tables)
  {
    if !SubscribeBlocks(s, p) {
      if ChannelFires(s, g) {
        PunishFacts(ChannelPost, m.chatId, m.sender.value, p, c.wall, t);
      } else {
        SameFacts(s, m, p, c, g, t);
      }
    }
  }

  /** The first violation wins: the outcome comes from the first check, in
      the order force-add, flood, subscription, channel post, anti-same,
      links, Arabic, advertising, bad words, that objects to the message;
      a message nobody objects to passes, and so does one without a sender.
      The configuration rows are only read. */
  lemma FirstViolationWins(s: ChatSettings, m: Message, p: Probe, c: Clock, g: Signals, t: Tables)
    ensures m.sender.None? ==> Decide(s, m, p, c, g, t) == Verdict(Passed, t)
    ensures m.sender.Some? ==> StepOf(Decide(s, m, p, c, g, t).outcome) == FirstStep(s, m, p, c, g, t)
    ensures SameConfig(t, Decide(s, m, p, c, g, t).tables)
  {
    if m.sender.Some? && !ForceBlocks(s, m, p, t) {
      if !s.antifloodEnabled {
        SubscribeFacts(s, m, p, c, g, t);
      } else {
        var t1 := t.(flood := t.flood[Key(m) := FloodQueue(s, m, c, t)]);
        if FloodFires(s, m, c, t) {
          PunishFacts(Flooding, m.chatId, m.sender.value, p, c.wall, t1);
        } else {
          SubscribeFacts(s, m, p, c, g, t1);
          assert SameFires(s, m, c, g, t1) == SameFires(s, m, c, g, t);
        }
      }
    }
  }

  /** Force-add holds a message back exactly when it blocks, and then
      nothing else happens; the prompt asks for the positive number of
      members still missing. */
  lemma ForcePromptExactly(s: ChatSettings, m: Message, p: Probe, c: Clock, g: Signals, t: Tables)
    ensures Decide(s, m, p, c, g, t).outcome.ForcePrompt? <==> m.sender.Some? && ForceBlocks(s, m, p, t)
    ensures m.sender.Some? && ForceBlocks(s, m, p, t) ==>
      var v := Decide(s, m, p, c, g, t);
      && v.tables == t
      && v.outcome.required == s.forceAddRequired && v.outcome.added == Added(m, t)
      && v.outcome.need == s.forceAddRequired - Added(m, t) > 0
  {
  }

  /** A subscription check that cannot be made behaves exactly like one
      that finds the sender subscribed. */
  lemma UnknownSubscriptionPasses(s: ChatSettings, m: Message, p: Probe, c: Clock, g: Signals, t: Tables)
    ensures Decide(s, m, p.(subscribed := None), c, g, t)
         == Decide(s, m, p.(subscribed := Some(true)), c, g, t)
  {
    var p1, p2 := p.(subscribed := None), p.(subscribed := Some(true));
    if m.sender.Some? {
      assert !SubscribeBlocks(s, p1) && !SubscribeBlocks(s, p2);
      var t1 := if s.antifloodEnabled then t.(flood := t.flood[Key(m) := FloodQueue(s, m, c, t)]) else t;
      assert ChannelStage(s, m, p1, c, g, t1) == ChannelStage(s, m, p2, c, g, t1) by {
        SameProbe(s, m, p1, p2, c, g, t1);
      }
    }
  }

  /** The stages from the channel check on read only the manager flag and
      whether a mute is possible from the probe. */
  lemma SameProbe(s: ChatSettings, m: Message, p1: Probe, p2: Probe, c: Clock, g: Signals, t: Tables)
    requires m.sender.Some? && p1.manager == p2.manager && p1.muteOk == p2.muteOk
    ensures ChannelStage(s, m, p1, c, g, t) == ChannelStage(s, m, p2, c, g, t)
  {
    var t2 := t.(msgLogs := t.msgLogs[Key(m) := MsgLog(g.hash, c.wall)]);
    assert LinkStage(s, m, p1, c, g, t) == LinkStage(s, m, p2, c, g, t);
    assert LinkStage(s, m, p1, c, g, t2) == LinkStage(s, m, p2, c, g, t2);
  }

  /** A manager is never muted by a laddered rule and never gains a
      strike; only the advertising cap can restrict them. */
  lemma ManagerNeverLaddered(s: ChatSettings, m: Message, p: Probe, c: Clock, g: Signals, t: Tables)
    requires p.manager
    ensures !Decide(s, m, p, c, g, t).outcome.Muted?
    ensures Decide(s, m, p, c, g, t).tables.strikes == t.strikes
  {
    if m.sender.Some? && !ForceBlocks(s, m, p, t) && !FloodFires(s, m, c, t) {
      var t1 := if s.antifloodEnabled then t.(flood := t.flood[Key(m) := FloodQueue(s, m, c, t)]) else t;
      assert Decide(s, m, p, c, g, t) == SubscribeStage(s, m, p, c, g, t1);
      ManagerFromSubscribe(s, m, p, c, g, t1);
    }
  }

  /** A verdict that mutes nobody and leaves the strikes of `t` alone. */
  predicate Calm(v: Verdict, t: Tables) {
    !v.outcome.Muted? && v.tables.strikes == t.strikes
  }

  lemma ManagerFromSubscribe(s: ChatSettings, m: Message, p: Probe, c: Clock, g: Signals, t: Tables)
    requires m.sender.Some? && p.manager
    ensures Calm(SubscribeStage(s, m, p, c, g, t), t)
  {
    if !SubscribeBlocks(s, p) && !ChannelFires(s, g) {
      if !SameChecked(s, g) {
        ManagerFromLink(s, m, p, c, g, t);
      } else if !SameFires(s, m, c, g, t) {
        ManagerFromLink(s, m, p, c, g, t.(msgLogs := t.msgLogs[Key(m) := MsgLog(g.hash, c.wall)]));
      }
    }
  }

  lemma ManagerFromLink(s: ChatSettings, m: Message, p: Probe, c: Clock, g: Signals, t: Tables)
    requires m.sender.Some? && p.manager
    ensures Calm(LinkStage(s, m, p, c, g, t), t)
  {
  }

  /** No earlier check objects to the message. */
  predicate ReachesSame(s: ChatSettings, m: Message, p: Probe, c: Clock, g: Signals, t: Tables)
    requires m.sender.Some?
  {
    !ForceBlocks(s, m, p, t) && !FloodFires(s, m, c, t) && !SubscribeBlocks(s, p) && !ChannelFires(s, g)
  }

  /** Anti-same: a checked message is a repeat exactly when it fires, a
      repeat leaves the log as it was found, and anything else becomes the
      new fingerprint stamped now. */
  lemma AntiSameLog(s: ChatSettings, m: Message, p: Probe, c: Clock, g: Signals, t: Tables)
    requires m.sender.Some? && ReachesSame(s, m, p, c, g, t) && SameChecked(s, g)
    ensures var v := Decide(s, m, p, c, g, t);
      && (StepOf(v.outcome) == Some(SameStep) <==> SameFires(s, m, c, g, t))
      && (SameFires(s, m, c, g, t) ==> v.tables.msgLogs == t.msgLogs[Key(m) := SameLog(m, c, t)])
      && (!SameFires(s, m, c, g, t) ==>
            v.tables.msgLogs == t.msgLogs[Key(m) := MsgLog(g.hash, c.wall)])
  {
    var t1 := if s.antifloodEnabled then t.(flood := t.flood[Key(m) := FloodQueue(s, m, c, t)]) else t;
    assert Decide(s, m, p, c, g, t) == SameStage(s, m, p, c, g, t1);
    assert SameFires(s, m, c, g, t1) == SameFires(s, m, c, g, t);
    SameFacts(s, m, p, c, g, t1);
    if SameFires(s, m, c, g, t) {
      PunishFacts(SameText, m.chatId, m.sender.value, p, c.wall, t1.(msgLogs := t1.msgLogs[Key(m) := SameLog(m, c, t1)]));
    } else {
      TailFacts(s, m, p, c, g, t1.(msgLogs := t1.msgLogs[Key(m) := MsgLog(g.hash, c.wall)]));
    }
  }

  /** A SHA-256 digest is never empty, while the log made for a sender
      without one holds the empty hash: so a sender's first message is
      never judged a repeat. */
  lemma FirstMessageNotRepeat(s: ChatSettings, m: Message, c: Clock, digest: string -> string,
                               badWords: map<int, seq<string>>, t: Tables)
    requires m.sender.Some? && Key(m) !in t.msgLogs
    requires forall x :: digest(x) != ""
    ensures !SameFires(s, m, c, Sense(m, digest, badWords), t)
  {
  }

  /** Advertising: once the message gets that far, the day's counter goes
      up by one; the sender is warned while the count stays within the
      daily limit and restricted once it passes it, manager or not, and
      the strike table is left alone. */
  lemma AdsDailyCap(s: ChatSettings, m: Message, p: Probe, c: Clock, g: Signals, t: Tables)
    requires m.sender.Some? && FirstStep(s, m, p, c, g, t) == Some(AdsStep)
    ensures var v := Decide(s, m, p, c, g, t);
      var key := (m.chatId, m.sender.value, c.day);
      var hits := Get(t.adsHits, key, 0) + 1;
      && v.tables.adsHits == Bump(t.adsHits, key, 1)
      && v.tables.strikes == t.strikes
      && (hits <= s.adsDailyLimit ==> v.outcome == AdsWarned(hits))
      && (hits > s.adsDailyLimit ==> v.outcome == AdsMuted(p.muteOk))
  {
    var t1 := if s.antifloodEnabled then t.(flood := t.flood[Key(m) := FloodQueue(s, m, c, t)]) else t;
    assert Decide(s, m, p, c, g, t) == SameStage(s, m, p, c, g, t1);
    assert SameFires(s, m, c, g, t1) == SameFires(s, m, c, g, t);
    var t2 := if SameChecked(s, g) then t1.(msgLogs := t1.msgLogs[Key(m) := MsgLog(g.hash, c.wall)]) else t1;
    assert SameStage(s, m, p, c, g, t1) == AdsStage(s, m, p, c, g, t2);
  }

  // ---------------------------------------------------- the handler itself

  /** The tables as the flood detector and the database hold them. */
  function TablesOf(flood: Flood.AntiFlood, db: DB): Tables
    reads flood, db
  {
    Tables(flood.data, db.strikes, db.adsHits, db.msgLogs, db.forceProgress, db.forcePriv)
  }

  /** `_handle_violation` on the database: the manager check, `hit_strike`
      with the one-hour window, and `reset_strike` after a mute. */
  method HandleViolation(rule: Rule, chatId: int, userId: int, p: Probe, wall: int, flood: Flood.AntiFlood, db: DB)
    returns (outcome: Outcome)
    modifies db
    ensures Verdict(outcome, TablesOf(flood, db)) == Punish(rule, chatId, userId, p, wall, old(TablesOf(flood, db)))
    ensures db.badWords == old(db.badWords) && db.chatBotAdmins == old(db.chatBotAdmins)
  {
    if p.manager {
      return Warned(rule);
    }
    var count := db.HitStrike(chatId, userId, RuleName(rule), wall, StrikeWindowSec);
    if count == 1 {
      return Warned(rule);
    }
    db.ResetStrike(chatId, userId, RuleName(rule));
    assert db.strikes == old(db.strikes) - {(chatId, userId, RuleName(rule))};
    return Muted(rule, p.muteOk);
  }

  /** `_process` on the live detector and database: each check runs in
      turn, reading and writing the tables as the source does, and the
      result and the new tables are those `Decide` gives for the tables the
      message found. */
  method Process(s: ChatSettings, m: Message, p: Probe, c: Clock, digest: string -> string,
                 flood: Flood.AntiFlood, db: DB) returns (outcome: Outcome)
    requires flood.Valid()
    requires m.sender.Some? ==> UpTo(flood.Queue(m.chatId, m.sender.value), c.mono)
    modifies flood, db
    ensures flood.Valid()
    ensures Verdict(outcome, TablesOf(flood, db))
         == Decide(s, m, p, c, Sense(m, digest, old(db.badWords)), old(TablesOf(flood, db)))
    ensures db.badWords == old(db.badWords) && db.chatBotAdmins == old(db.chatBotAdmins)
  {
    if m.sender.None? {
      return Passed;
    }
    var text := GetText(m);
    var words := db.ListBadWords(m.chatId, ScanLimit);
    assert words == Scanned(db.badWords, m.chatId);
    var hit := FindBadWord(WordsForm(text), words);
    var g := Signals(
      blank := Strip(text) == [],
      hash := TextHash(digest, text),
      channelPost := IsChannelPost(m.origin),
      link := HasLink(text),
      arabic := HasArabic(text),
      ads := LooksLikeAds(text),
      swear := hit.Some?);
    assert g == Sense(m, digest, db.badWords);
    outcome := RunForce(s, m, p, c, g, flood, db);
  }

  method RunForce(s: ChatSettings, m: Message, p: Probe, c: Clock, g: Signals,
                  flood: Flood.AntiFlood, db: DB) returns (outcome: Outcome)
    requires m.sender.Some?
    requires flood.Valid() && UpTo(flood.Queue(m.chatId, m.sender.value), c.mono)
    modifies flood, db
    ensures flood.Valid()
    ensures Verdict(outcome, TablesOf(flood, db)) == ForceStage(s, m, p, c, g, old(TablesOf(flood, db)))
    ensures db.badWords == old(db.badWords) && db.chatBotAdmins == old(db.chatBotAdmins)
  {
    var userId := m.sender.value;
    ghost var t0 := TablesOf(flood, db);
    if s.forceAddEnabled && !p.tgAdmin && (m.chatId, userId) !in db.forcePriv {
      var added := db.GetForceProgress(m.chatId, userId);
      var required := s.forceAddRequired;
      assert added == Added(m, t0);
      if added < required {
        assert ForceBlocks(s, m, p, t0);
        return ForcePrompt(required, added, Max(0, required - added));
      }
    }
    assert !ForceBlocks(s, m, p, t0);
    outcome := RunFlood(s, m, p, c, g, flood, db);
  }

  method RunFlood(s: ChatSettings, m: Message, p: Probe, c: Clock, g: Signals,
                   flood: Flood.AntiFlood, db: DB) returns (outcome: Outcome)
    requires m.sender.Some?
    requires flood.Valid() && UpTo(flood.Queue(m.chatId, m.sender.value), c.mono)
    modifies flood, db
    ensures flood.Valid()
    ensures Verdict(outcome, TablesOf(flood, db)) == FloodStage(s, m, p, c, g, old(TablesOf(flood, db)))
    ensures db.badWords == old(db.badWords) && db.chatBotAdmins == old(db.chatBotAdmins)
  {
    ghost var t0 := TablesOf(flood, db);
    if !s.antifloodEnabled {
      outcome := RunSubscribe(s, m, p, c, g, flood, db);
      return;
    }
    assert flood.Queue(m.chatId, m.sender.value) == Get(t0.flood, Key(m), []);
    var exceeded := flood.Hit(m.chatId, m.sender.value, c.mono, s.floodWindowSec, s.floodMaxMsgs);
    ghost var q := FloodQueue(s, m, c, t0);
    assert q == Evict(old(flood.Queue(m.chatId, m.sender.value)) + [c.mono], c.mono - s.floodWindowSec);
    assert flood.data == t0.flood[Key(m) := q];
    ghost var t1 := t0.(flood := t0.flood[Key(m) := q]);
    assert TablesOf(flood, db) == t1;
    assert exceeded <==> |FloodQueue(s, m, c, t0)| > s.floodMaxMsgs;
    if exceeded {
      outcome := HandleViolation(Flooding, m.chatId, m.sender.value, p, c.wall, flood, db);
      return;
    }
    outcome := RunSubscribe(s, m, p, c, g, flood, db);
  }

  method RunSubscribe(s: ChatSettings, m: Message, p: Probe, c: Clock, g: Signals,
                       flood: Flood.AntiFlood, db: DB) returns (outcome: Outcome)
    requires m.sender.Some?
    modifies db
    ensures Verdict(outcome, TablesOf(flood, db)) == SubscribeStage(s, m, p, c, g, old(TablesOf(flood, db)))
    ensures db.badWords == old(db.badWords) && db.chatBotAdmins == old(db.chatBotAdmins)
  {
    if s.linkedChannel != [] && p.subscribed == Some(false) {
      return SubscribePrompt;
    }
    if s.blockChannelPosts && g.channelPost {
      outcome := HandleViolation(ChannelPost, m.chatId, m.sender.value, p, c.wall, flood, db);
      return;
    }
    outcome := RunSame(s, m, p, c, g, flood, db);
  }

  method RunSame(s: ChatSettings, m: Message, p: Probe, c: Clock, g: Signals,
                  flood: Flood.AntiFlood, db: DB) returns (outcome: Outcome)
    requires m.sender.Some?
    modifies db
    ensures Verdict(outcome, TablesOf(flood, db)) == SameStage(s, m, p, c, g, old(TablesOf(flood, db)))
    ensures db.badWords == old(db.badWords) && db.chatBotAdmins == old(db.chatBotAdmins)
  {
    ghost var t0 := TablesOf(flood, db);
    if !(s.antisameEnabled && !g.blank) {
      outcome := RunLink(s, m, p, c, g, flood, db);
      return;
    }
    var h := g.hash;
    var log := db.GetOrCreateMsgLog(m.chatId, m.sender.value, c.wall);
    assert log == SameLog(m, c, t0);
    assert TablesOf(flood, db) == t0.(msgLogs := t0.msgLogs[Key(m) := log]);
    if log.lastHash == h && c.wall - log.lastAt <= s.antisameMinutes * 60 {
      assert SameFires(s, m, c, g, t0);
      outcome := HandleViolation(SameText, m.chatId, m.sender.value, p, c.wall, flood, db);
      return;
    }
    assert !SameFires(s, m, c, g, t0);
    db.UpdateMsgLog(m.chatId, m.sender.value, h, c.wall);
    assert db.msgLogs == t0.msgLogs[Key(m) := MsgLog(g.hash, c.wall)];
    assert TablesOf(flood, db) == t0.(msgLogs := t0.msgLogs[Key(m) := MsgLog(g.hash, c.wall)]);
    outcome := RunLink(s, m, p, c, g, flood, db);
  }

  method RunLink(s: ChatSettings, m: Message, p: Probe, c: Clock, g: Signals,
                  flood: Flood.AntiFlood, db: DB) returns (outcome: Outcome)
    requires m.sender.Some?
    modifies db
    ensures Verdict(outcome, TablesOf(flood, db)) == LinkStage(s, m, p, c, g, old(TablesOf(flood, db)))
    ensures db.badWords == old(db.badWords) && db.chatBotAdmins == old(db.chatBotAdmins)
  {
    if s.blockLinks && g.link {
      outcome := HandleViolation(Links, m.chatId, m.sender.value, p, c.wall, flood, db);
      return;
    }
    if s.blockArab && g.arabic {
      outcome := HandleViolation(Arabic, m.chatId, m.sender.value, p, c.wall, flood, db);
      return;
    }
    outcome := RunAds(s, m, p, c, g, flood, db);
  }

  method RunAds(s: ChatSettings, m: Message, p: Probe, c: Clock, g: Signals,
                 flood: Flood.AntiFlood, db: DB) returns (outcome: Outcome)
    requires m.sender.Some?
    modifies db
    ensures Verdict(outcome, TablesOf(flood, db)) == AdsStage(s, m, p, c, g, old(TablesOf(flood, db)))
    ensures db.badWords == old(db.badWords) && db.chatBotAdmins == old(db.chatBotAdmins)
  {
    if s.blockAds && g.ads {
      var hits := db.IncAdsHits(m.chatId, m.sender.value, c.day, 1);
      if hits <= s.adsDailyLimit {
        return AdsWarned(hits);
      }
      return AdsMuted(p.muteOk);
    }
    if s.blockSwear && !g.blank && g.swear {
      outcome := HandleViolation(Swearing, m.chatId, m.sender.value, p, c.wall, flood, db);
      return;
    }
    return Passed;
  }

  // ------------------------------------------------- member updates, joins

  /** A chat-member update: old and new status, who made the change and the
      member concerned (with its bot flag); either may be missing. */
  datatype MemberUpdate = MemberUpdate(
    chatId: int,
    oldStatus: Option<string>,
    newStatus: Option<string>,
    inviter: Option<int>,
    newUser: Option<(int, bool)>)

  /** `guard_chat_member` credits an invite: force-add is on, the member was
      outside the chat and is now in it, both users are known, nobody
      invited themselves, the new member is not a bot and the inviter is
      not a Telegram admin. */
  predicate CountsInvite(s: ChatSettings, u: MemberUpdate, inviterIsAdmin: bool) {
    && s.forceAddEnabled
    && u.oldStatus in [Some("left"), Some("kicked")]
    && u.newStatus in [Some("member"), Some("restricted"), Some("administrator"), Some("creator")]
    && u.inviter.Some? && u.newUser.Some?
    && u.inviter.value != u.newUser.value.0
    && !u.newUser.value.1
    && !inviterIsAdmin
  }

  method GuardChatMember(s: ChatSettings, u: MemberUpdate, inviterIsAdmin: bool, db: DB)
    modifies db
    ensures CountsInvite(s, u, inviterIsAdmin) ==>
      db.forceProgress == Bump(old(db.forceProgress), (u.chatId, u.inviter.value), 1)
    ensures !CountsInvite(s, u, inviterIsAdmin) ==> db.forceProgress == old(db.forceProgress)
    ensures db.strikes == old(db.strikes) && db.adsHits == old(db.adsHits) && db.msgLogs == old(db.msgLogs)
    ensures db.badWords == old(db.badWords) && db.forcePriv == old(db.forcePriv) && db.chatBotAdmins == old(db.chatBotAdmins)
  {
    if !s.forceAddEnabled {
      return;
    }
    if u.oldStatus != Some("left") && u.oldStatus != Some("kicked") {
      return;
    }
    if u.newStatus != Some("member") && u.newStatus != Some("restricted")
      && u.newStatus != Some("administrator") && u.newStatus != Some("creator") {
      return;
    }
    if u.inviter.None? || u.newUser.None? {
      return;
    }
    if u.inviter.value == u.newUser.value.0 {
      return;
    }
    if u.newUser.value.1 {
      return;
    }
    if inviterIsAdmin {
      return;
    }
    db.IncForceProgress(u.chatId, u.inviter.value, 1);
  }

  /** `n` credited invites add `n` to the inviter's progress. */
  lemma {:induction false} InvitesAdd(m: map<(int, int), int>, k: (int, int), n: nat)
    ensures Get(BumpTimes(m, k, n), k, 0) == Get(m, k, 0) + n
  {
    if n > 0 {
      InvitesAdd(m, k, n - 1);
    }
  }

  /** Force-add stops holding a sender back once they have added enough
      members: after `n` credited invites with `added + n >= required`,
      their messages get past the force-add check. */
  lemma InvitesUnlock(s: ChatSettings, m: Message, p: Probe, t: Tables, n: nat)
    requires m.sender.Some? && Added(m, t) + n >= s.forceAddRequired
    ensures !ForceBlocks(s, m, p, t.(forceProgress := BumpTimes(t.forceProgress, Key(m), n)))
  {
    InvitesAdd(t.forceProgress, Key(m), n);
  }

  /** The anti-raid notice as the handler builds it: a string, or (by a
      trailing comma) a one-element tuple holding the string. */
  datatype Notice = TextNotice(text: string) | TupleNotice(items: seq<string>)

  /** Sending a notice goes through only when it is a string and the
      platform accepts it; a tuple is refused before anything is sent. */
  predicate Sent(n: Notice, platformOk: bool) {
    n.TextNotice? && platformOk
  }

  function RaidText(s: ChatSettings): string {
    "🚨 Anti-raid: chat yopildi.\nLimit: " + ToDecimalInt(s.raidLimit) + " / oyna: "
      + ToDecimalInt(s.raidWindowMin) + " soat / yopish: " + ToDecimalInt(s.raidCloseMin) + " soat"
  }

  /** The notice `guard_join` builds: `text = (f"..." f"...",)` is a tuple. */
  function RaidNoticeAsWritten(s: ChatSettings): Notice {
    TupleNotice([RaidText(s)])
  }

  /** The notice as evidently meant: the string itself. */
  function RaidNotice(s: ChatSettings): Notice {
    TextNotice(RaidText(s))
  }

  /** What `guard_join` did: whether the raid detector triggered, whether
      the chat was locked (the `DENY_ALL` restriction applied and the lock
      time set), and whether lifting the restriction was scheduled. */
  datatype JoinOutcome = JoinOutcome(hidden: bool, triggered: bool, locked: bool, reopenScheduled: bool)

  /** `guard_join`: counts the joins with windows and lock periods of
      `raid_window_min` and `raid_close_min` hours; when the detector
      triggers, applies `DENY_ALL` (polls, stickers and other messages,
      link previews and invites denied; text and media still allowed),
      sets the lock time, sends the notice and, only if all of that went
      through, schedules lifting the restriction. */
  method GuardJoin(s: ChatSettings, chatId: int, joinCount: int, now: int, permsOk: bool, platformOk: bool,
                   notice: Notice, raid: Raid.AntiRaid) returns (r: JoinOutcome)
    requires raid.Valid() && UpTo(raid.State(chatId).joins, now)
    modifies raid
    ensures raid.Valid()
    ensures r.hidden == s.hideServiceMsgs
    ensures r.triggered <==>
      s.raidLimit > 0 && !Raid.IsLocked(old(raid.State(chatId)), now)
      && |Raid.AfterBurst(old(raid.State(chatId)), Raid.Burst(joinCount), now, s.raidWindowMin * 3600).joins| >= s.raidLimit
    ensures r.locked <==> r.triggered && permsOk
    ensures r.reopenScheduled <==> r.locked && Sent(notice, platformOk)
    ensures r.locked ==> raid.State(chatId).lockedUntil == now + s.raidCloseMin * 3600
    ensures !r.locked ==> raid.State(chatId).lockedUntil == old(raid.State(chatId)).lockedUntil
    ensures raid.State(chatId).joins ==
      if s.raidLimit > 0 && !Raid.IsLocked(old(raid.State(chatId)), now)
      then Raid.AfterBurst(old(raid.State(chatId)), Raid.Burst(joinCount), now, s.raidWindowMin * 3600).joins
      else old(raid.State(chatId)).joins
    ensures raid.chats - {chatId} == old(raid.chats) - {chatId}
  {
    var windowSec := s.raidWindowMin * 3600;
    var closeSec := s.raidCloseMin * 3600;
    var triggered := raid.Hit(chatId, joinCount, now, windowSec, s.raidLimit);
    if !triggered {
      return JoinOutcome(s.hideServiceMsgs, false, false, false);
    }
    if !permsOk {
      return JoinOutcome(s.hideServiceMsgs, true, false, false);
    }
    raid.SetLocked(chatId, now, closeSec);
    if !Sent(notice, platformOk) {
      return JoinOutcome(s.hideServiceMsgs, true, true, false);
    }
    return JoinOutcome(s.hideServiceMsgs, true, true, true);
  }

  /** As written, the notice is never sent: with `GuardJoin`'s contract, a
      raid that locks the chat never schedules lifting the `DENY_ALL`
      restriction, whatever the platform answers, so the restriction stays. */
  lemma TupleNoticeNeverSent(s: ChatSettings, platformOk: bool)
    ensures !Sent(RaidNoticeAsWritten(s), platformOk)
  {
  }

  /** With the notice sent as a string, the restriction a raid puts on a
      chat is lifted on schedule whenever the platform accepts the notice. */
  lemma TextNoticeSent(s: ChatSettings)
    ensures Sent(RaidNotice(s), true)
    ensures RaidNotice(s).text == RaidNoticeAsWritten(s).items[0]
  {
  }
}
