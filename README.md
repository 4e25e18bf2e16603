# Group guard bot: the moderation decision engine

This project models the decision core of a Telegram group-guard bot. For each
group message the bot checks the chat's rules in a fixed order: force-add,
flood, linked-channel subscription, channel post, anti-same, links, Arabic
script, advertising and bad words. The first rule that fires decides. A
repeated violation climbs a strike ladder that ends in a mute. Advertising has
its own daily cap. Join bursts feed an anti-raid detector. When it triggers, the bot puts the chat
under the `DENY_ALL` restriction for a lock period. Text and media stay allowed;
polls, stickers and other messages, link previews and invites are denied.
Administrators tune all of this with chat commands and an inline panel.

One Dafny module per source file:

- `Window` (shared by `app/utils/antiflood.py` and `app/utils/antiraid.py`): the sliding window: a timestamp queue trimmed from the front, and its reference definition
- `Flood` (`app/utils/antiflood.py`): `AntiFlood` as a class whose `data` map of queues its methods update
- `Raid` (`app/utils/antiraid.py`): `AntiRaid` as a class over a map of `RaidState`
- `Store` (`app/db.py`): the counter tables as map and set fields of a `DB` class: strikes, daily ad hits, message logs, bad words, force-add progress and privileges, chat bot admins
- `Moderation` (`app/utils/moderation.py`): `normalize_text`, `text_hash` (the digest is a parameter), `has_link` without bare domains, `has_arabic`, `looks_like_ads`, `is_channel_post`
- `Words` (`app/handlers/guard.py`): `_normalize_for_words` and whole-token bad-word matching
- `Guard` (`app/handlers/guard.py`): `_process` as the pure `Decide` plus the imperative `Process`; `_handle_violation`; `guard_chat_member`; `guard_join`
- `Settings` (`app/handlers/settings.py`): `_parse_int`, the numeric commands and their bounds, `_toggle`, `/set`, `/add`, `/textforce`, the anti-raid panel, `/yomonqosh` and `/yomondel`
- `Base` (`app/handlers/base.py`): `safe_html`, `_on`, the anti-raid line of `settings_text`
- `Ads` (`app/handlers/ads.py`): `_parse_buttons` and the title that `ad_save` gives an ad
- `Models` (`app/models.py`): the `ChatSettings` record and its column defaults
- `Text`, `Common` (Python built-ins): Python's string built-ins (`strip`, `lower`, `split`, `splitlines`, `isdigit`, `int`, `str`) and small helpers

Clock readings, the platform's answers and the SHA-256 digest are parameters:
- the monotonic clock, the wall clock and the day number are integers;
- the platform answers are: admin status, whether the caller may manage the bot, the subscription check, and whether a restriction or notice went through;
- the digest is a function value.

`Decide` is a pure function over the settings, the message, those answers, the
classifier results (`Signals`) and the tables. `Process` runs the same checks
step by step on the live `AntiFlood` and `DB` objects. Its postcondition says
that its result and new tables are exactly what `Decide` gives.

## Model

| member | source | states |
|---|---|---|
| `Common.Clamp` | app/handlers/settings.py:198-206 | `max(lo, min(hi, x))` lies in `[lo, hi]`; it is `x` inside the range and the nearer end outside it |
| `Common.Take` | app/handlers/ads.py:110-111 | Python's `s[:n]`: a prefix of length `min(n, len(s))` |
| `Common.Repeat` | app/utils/antiraid.py:31-32 | the joins appended by the loop: `n` copies of one timestamp |
| `Window.EvictFacts` | app/utils/antiflood.py:36-38 | popping from the front leaves a suffix whose first entry is at or after the cutoff; every dropped entry is strictly older, so an entry exactly at the cutoff is kept |
| `Window.EvictSortedIsRecent` | app/utils/antiflood.py:33-38 | on a sorted queue, front-only eviction equals filtering out every entry below the cutoff (`Recent`) |
| `Window.EvictSortedAllRecent` | app/utils/antiflood.py:36-38 | after eviction, every entry of a sorted queue is at or after the cutoff |
| `Window.StepInWindow` | app/utils/antiflood.py:33-38 | appending `now` (once or several times) to a sorted queue with nothing later than `now`, then evicting, leaves a sorted queue inside `[now - window, now]` |
| `Window.CountInsideWindow` | app/utils/antiraid.py:34-38 | events fed strictly inside the window are all counted: eviction removes none of them |
| `Window.BurstIntoEmpty` | app/utils/antiraid.py:31-38 | `n` simultaneous events fed into an empty window count `n` |
| `Flood.AntiFlood.constructor` | app/utils/antiflood.py:19-20 | starts with no queues |
| `Flood.AntiFlood.Hit` | app/utils/antiflood.py:22-40 | only the `(chat, user)` entry changes: it becomes the old queue plus `now`, with stale entries popped from the front; the result is true iff more than `max_msgs` entries remain; every kept entry lies in `[now - window_sec, now]`; all queues stay sorted |
| `Flood.AntiFlood.CleanupChat` | app/utils/antiflood.py:42-46 | removes exactly the keys whose chat is `chat_id`; every other key keeps its queue |
| `Flood.AntiFlood.ClearUser` | app/utils/antiflood.py:48-49 | removes the one `(chat, user)` key and nothing else |
| `Flood.FloodThreshold` | app/utils/antiflood.py:33-40 | with `k` messages all inside the window, the new one is counted together with all `k`; it is a flood iff `k >= max_msgs`, so `max_msgs` messages per window are always allowed |
| `Raid.Burst` | app/utils/antiraid.py:31 | `max(1, join_count)`: at least one, and exactly `join_count` when that is positive |
| `Raid.AntiRaid.constructor` | app/utils/antiraid.py:14-15 | starts with no chat state |
| `Raid.AntiRaid.Hit` | app/utils/antiraid.py:17-38 | `limit <= 0`: false, and no state is created or changed. Locked chat (`locked_until` set and `now < locked_until`): false, and state unchanged. Otherwise only this chat changes: `max(1, n)` copies of `now` are appended, stale joins are evicted, and the lock time is kept, so `hit` never sets it. The result is true iff at least `limit` joins remain |
| `Raid.AntiRaid.SetLocked` | app/utils/antiraid.py:40-46 | sets the lock time to `now + seconds`, creating the state if absent; the joins are kept and other chats are untouched |
| `Raid.AntiRaid.Clear` | app/utils/antiraid.py:48-49 | removes the chat, so its state reads as the fresh, open, empty record again |
| `Raid.BurstThreshold` | app/utils/antiraid.py:31-38 | with no recent joins, a burst triggers iff `max(1, n) >= limit`; fewer than `limit` joins at once never lock the chat |
| `Raid.CountedJoins` | app/utils/antiraid.py:31-38 | with `k` joins inside the window, a burst of `n` triggers iff `k + n >= limit` |
| `Store.Bump` | app/db.py:174-189 | the upsert-and-add: row `k` becomes its old value (0 when absent) plus `inc`; every other row is unchanged |
| `Store.NextStrike` | app/db.py:403-424 | a new row starts at 1; an existing row restarts at 1 when `last_at < now - window_sec` and goes up by one otherwise; either way it is stamped `now` |
| `Store.StrikeStreak` | app/db.py:403-437 | after a series of violations, the count is the length of the latest streak. A streak breaks exactly where a violation comes more than the window after the previous one |
| `Store.NormWord` | app/db.py:281 | `strip().lower()` gives a stripped word with no upper-case letter |
| `Store.NormWordIdempotent` | app/db.py:281-290 | normalising a stored word again changes nothing |
| `Store.NormalIsFixed` | app/db.py:281 | a word is in normal form iff normalisation leaves it unchanged |
| `Store.AppendWordList` | app/db.py:285-293 | inserting a new, non-empty normalised word keeps the chat's list unique and normalised |
| `Store.Without` | app/db.py:300-302 | the delete keeps exactly the other words |
| `Store.WithoutWordList` | app/db.py:295-304 | deleting a word keeps the chat's list unique and normalised |
| `Store.DB.constructor` | app/db.py:22-25 | all tables empty |
| `Store.DB.HitStrike` | app/db.py:403-437 | the `(chat, user, rule)` row becomes `NextStrike` of the old row and its count is returned; no other row or table changes |
| `Store.DB.ResetStrike` | app/db.py:439-446 | deletes only that `(chat, user, rule)` row; other rules, users and tables are unchanged |
| `Store.DB.IncAdsHits` | app/db.py:174-189 | an absent `(chat, user, day)` counts as 0; `inc` is added and the new total returned; other days and tables are unchanged |
| `Store.DB.GetOrCreateMsgLog` | app/db.py:192-205 | returns the stored log, or creates and returns one with an empty hash stamped `now` |
| `Store.DB.UpdateMsgLog` | app/db.py:207-221 | upsert: afterwards the `(chat, user)` log holds exactly the given hash and time |
| `Store.DB.AddBadWord` | app/db.py:280-293 | true iff the normalised word is non-empty and new to the chat; then it is appended; otherwise nothing changes |
| `Store.DB.RemoveBadWord` | app/db.py:295-304 | false only for an empty normalised word; otherwise the word is deleted if present and the result is true even when it was absent |
| `Store.DB.ListBadWords` | app/db.py:306-311 | the first `limit` words of the chat |
| `Store.DB.GetForceProgress` | app/db.py:314-322 | the stored count, or 0 when there is no row |
| `Store.DB.IncForceProgress` | app/db.py:324-336 | adds `inc` to the user's progress (0 when absent); nothing else changes |
| `Store.DB.ResetForceUser` | app/db.py:338-344 | deletes only that user's progress row |
| `Store.DB.CleanUserStats` | app/db.py:369-389 | deletes the user's daily counters of every day, the message log and the force-add progress in that chat; strikes, other users and other chats are kept |
| `Store.DB.DeforceChat` | app/db.py:391-401 | deletes every progress and privilege row of the chat and nothing else |
| `Store.DB.AddChatBotAdmin` | app/db.py:254-265 | afterwards the pair is in the set, and adding twice is the same as adding once |
| `Store.AdsHitsCount` | app/db.py:174-189 | `n` increments of 1 on a fresh `(chat, user, day)` leave exactly `n` and do not touch other days, so a new day starts from 0 |
| `Text.Strip` | app/utils/moderation.py:53 | `str.strip()`: the result starts and ends with no whitespace, and stripped text is returned as it is |
| `Text.Lower` | app/utils/moderation.py:53 | `str.lower()` maps each character on its own |
| `Text.UzbekCyrillicLower` | app/handlers/guard.py:69 | the Uzbek Cyrillic capitals Ў, Ғ, Қ and Ҳ lower to their small letters |
| `Text.LowerCharFacts` | app/utils/moderation.py:53 | lower-casing leaves no upper-case letter, is idempotent and keeps whitespace, word and line-break characters what they were |
| `Text.ValueOfToDecimal` | app/handlers/settings.py:32 | `int(str(n)) == n` for every natural `n` |
| `Text.JoinSplit` | app/handlers/settings.py:162 | `':'.join(data.split(':')) == data`: splitting loses nothing |
| `Text.SplitCount` | app/handlers/settings.py:162 | `split` gives one more part than there are separators |
| `Text.SplitJoin` | app/handlers/settings.py:162 | parts free of the separator come back unchanged from a join and split |
| `Text.SplitLines` | app/handlers/ads.py:101 | `splitlines()`: no line holds a line break, empty text has no lines, and the first line ends at the first break |
| `Moderation.CollapseSingleSpaced` | app/utils/moderation.py:54 | after `re.sub(r"\s+", " ", t)`, every whitespace character is a plain space and no two spaces are adjacent |
| `Moderation.CollapseNonSpace` | app/utils/moderation.py:54 | the non-space characters are kept, in order |
| `Moderation.CollapseChars` | app/utils/moderation.py:54 | the collapse adds nothing but spaces |
| `Moderation.CollapseFixed` | app/utils/moderation.py:54 | single-spaced text is unchanged |
| `Moderation.Collapse` | app/utils/moderation.py:54 | `re.sub(r"\s+", " ", t)` is empty iff its input is; a leading non-space character is kept and leading whitespace becomes one space |
| `Moderation.CollapseStripped` | app/utils/moderation.py:53-54 | collapsing a stripped text leaves it stripped |
| `Moderation.CollapseLast` | app/utils/moderation.py:54 | a text ending in a non-space character keeps that last character |
| `Moderation.CollapseShape` | app/utils/moderation.py:53-54 | after strip and lower, the collapse gives a stripped, single-spaced text with no upper-case letter |
| `Moderation.RunsValid` | app/utils/moderation.py:56 | the run-length decomposition has non-empty, maximal runs and expands back to the text |
| `Moderation.RunLenFacts` | app/utils/moderation.py:56 | the first run is a block of copies of the first character, and it is maximal |
| `Moderation.RunsOfExpand` | app/utils/moderation.py:56 | decomposing the expansion of valid runs gives those runs back (round trip) |
| `Moderation.SqueezeIsShrink` | app/utils/moderation.py:56 | `re.sub(r"(.)\1{3,}", r"\1\1", t)` turns every maximal run of 4 or more of one character (other than a newline, which `.` does not match) into exactly 2, and leaves shorter runs alone |
| `Moderation.SqueezeRuns` | app/utils/moderation.py:56 | the runs of the squeezed text are the shrunk runs of the input |
| `Moderation.SqueezeNoLongRun` | app/utils/moderation.py:56 | no run of 4 or more (non-newline) characters is left |
| `Moderation.SqueezeFixed` | app/utils/moderation.py:56 | text with no such run is unchanged |
| `Moderation.SqueezeChars` | app/utils/moderation.py:56 | squeezing adds no character |
| `Moderation.SqueezePairs` | app/utils/moderation.py:56 | every adjacent pair of the output is an adjacent pair of the input |
| `Moderation.SqueezeLast` | app/utils/moderation.py:56 | the squeeze keeps the last character |
| `Moderation.SqueezeShape` | app/utils/moderation.py:52-57 | squeezing the collapsed text completes the normal form |
| `Moderation.NormalizeShape` | app/utils/moderation.py:52-57 | `normalize_text` output is stripped, has no upper-case letter, is single-spaced and has no long run |
| `Moderation.NormalizeFixed` | app/utils/moderation.py:52-57 | text of that shape is its own normal form |
| `Moderation.NormalizeIdempotent` | app/utils/moderation.py:52-57 | normalising twice is normalising once |
| `Moderation.NormalizeIgnoresCase` | app/utils/moderation.py:52-57 | a text and its lower-case form normalise alike |
| `Moderation.StripLower` | app/utils/moderation.py:53 | strip and lower commute |
| `Moderation.HashOfNormalForm` | app/utils/moderation.py:59-61 | `text_hash` depends only on the normal form, so a text, its normal form and its lower-case form hash alike |
| `Moderation.HasLinkIgnoresCase` | app/utils/moderation.py:9-20 | the `(?i)` link search gives the same answer on the lower-cased text |
| `Moderation.LinkInContext` | app/utils/moderation.py:63-64 | `search`: a link anywhere in a text is found, whatever surrounds it |
| `Moderation.ChannelPostOrigins` | app/utils/moderation.py:126-133 | `is_channel_post`: any message with a `sender_chat` is a channel post; without one, a forward is a channel post iff the chat it comes from has type `channel`; a plain message is not |
| `Moderation.HasArabic` | app/utils/moderation.py:32 | true iff some character lies in U+0600–06FF, U+0750–077F or U+08A0–08FF; false for empty text |
| `Moderation.AnyIn` | app/utils/moderation.py:75 | `any(k in norm for k in keys)`: true iff some keyword is a substring |
| `Moderation.LooksLikeAds` | app/utils/moderation.py:73-80 | a strong keyword in the normalised text is enough. Otherwise the result is true iff the normalised text has a link and a weak keyword |
| `Moderation.AdsStable` | app/utils/moderation.py:73-80 | a text, its lower-case form and its normal form are classified alike |
| `Words.NonWordToSpace` | app/handlers/guard.py:72 | `re.sub(r"[^\w]+", " ", t)`: empty iff empty; a leading word character is kept and a leading non-word run becomes a space |
| `Words.NonWordToSpaceShape` | app/handlers/guard.py:72 | the output holds only word characters and single plain spaces |
| `Words.InnerTokenized` | app/handlers/guard.py:69-73 | after collapsing and stripping: word tokens separated by single spaces, with no space at either end |
| `Words.WordsFormShape` | app/handlers/guard.py:69-74 | `_normalize_for_words` begins and ends with exactly one space around single-spaced word tokens |
| `Words.TokenMatch` | app/handlers/guard.py:378 | on a padded, tokenised text, `f" {w} " in norm` iff `w` is one of the tokens |
| `Words.SingleTokenMatch` | app/handlers/guard.py:378 | a one-token message matches exactly its own token |
| `Words.BadWordIsWholeToken` | app/handlers/guard.py:374-378 | a bad word made of word characters matches a message iff it is one of the message's word tokens after lower-casing |
| `Words.PunctuatedNeverMatches` | app/handlers/guard.py:72-78 | a bad word holding a character that is neither a word character nor a space never matches |
| `Words.FindBadWord` | app/handlers/guard.py:377-386 | the loop returns the first word of the list that matches, or none exactly when no word matches |
| `Guard.GetText` | app/handlers/guard.py:76-77 | `message.text or message.caption or ""`: the text when it is non-empty, else the caption; empty iff both are absent or empty |
| `Guard.StrikeLadder` | app/handlers/guard.py:145-165 | a non-manager is muted iff a strike of the same rule from the last hour is on record. A warning leaves a strike stamped now. A mute clears the strike even when the mute failed. No other row changes |
| `Guard.ManagerOnlyWarned` | app/handlers/guard.py:144-147 | a manager gets only the warning and the strike table is untouched |
| `Guard.SecondStrikeMutes` | app/handlers/guard.py:149-165 | a first violation warns; a second within the hour mutes; the next one warns again |
| `Guard.Scanned` | app/handlers/guard.py:376 | the guard scans the first 200 bad words of the chat, all of them when there are fewer |
| `Guard.FirstViolationWins` | app/handlers/guard.py:168-386 | the outcome comes from the first objecting check in the order force-add, flood, subscription, channel post, anti-same, links, Arabic, ads, bad words. With no objection, or with no sender, the message passes. Force-add progress and privileges are only read |
| `Guard.ForcePromptExactly` | app/handlers/guard.py:181-192 | force-add holds the message back iff it is on, the sender is neither a Telegram admin nor privileged, and `added < required`. Then nothing else runs and the prompt shows `need = required - added > 0` |
| `Guard.UnknownSubscriptionPasses` | app/handlers/guard.py:257-288 | a subscription check that cannot be made (None) gives exactly the verdict of one that finds the sender subscribed |
| `Guard.ManagerNeverLaddered` | app/handlers/guard.py:144-147 | a manager is never muted by a laddered rule and gains no strike; only the ads cap can restrict them |
| `Guard.AntiSameLog` | app/handlers/guard.py:301-316 | a checked message is a repeat iff the stored hash is equal and at most `minutes * 60` seconds have passed. A repeat leaves the log as it was found; any other message becomes the new fingerprint stamped now |
| `Guard.FirstMessageNotRepeat` | app/handlers/guard.py:301-316 | with a digest that is never empty (SHA-256 hex), a sender with no stored log is never judged a repeat: the log `get_or_create_msglog` makes holds the empty hash |
| `Guard.AdsDailyCap` | app/handlers/guard.py:340-372 | the day's counter goes up by one. The sender is warned while hits stay `<= ads_daily_limit` and muted for 300 minutes once they go above it, manager or not. Strikes are untouched |
| `Guard.HandleViolation` | app/handlers/guard.py:104-165 | on the database, `_handle_violation` gives exactly the outcome and strike table of the ladder (`Punish`) |
| `Guard.Process` | app/handlers/guard.py:168-386 | `_process` on the live flood detector and database gives exactly the outcome and new tables of `Decide`; queues stay sorted; bad words and bot admins are untouched |
| `Guard.RunForce` | app/handlers/guard.py:181-237 | the force-add step and everything after it agree with `ForceStage` |
| `Guard.RunFlood` | app/handlers/guard.py:239-255 | the flood step records the message, then punishes or goes on, as `FloodStage` does |
| `Guard.RunSubscribe` | app/handlers/guard.py:257-299 | the subscription and channel-post steps agree with `SubscribeStage` |
| `Guard.RunSame` | app/handlers/guard.py:301-316 | the anti-same step reads, compares and updates the log as `SameStage` does |
| `Guard.RunLink` | app/handlers/guard.py:318-338 | the link and Arabic steps agree with `LinkStage` |
| `Guard.RunAds` | app/handlers/guard.py:340-386 | the ads and bad-word steps agree with `AdsStage` |
| `Guard.GuardChatMember` | app/handlers/guard.py:477-512 | the inviter's progress goes up by one iff force-add is on, the member moved from left or kicked into the chat, both users are known and distinct, the member is no bot and the inviter no Telegram admin; nothing else changes |
| `Guard.InvitesAdd` | app/handlers/guard.py:512 | `n` credited invites add `n` to the inviter's progress |
| `Guard.InvitesUnlock` | app/handlers/guard.py:182-186 | once `added + n >= required`, force-add no longer holds the sender back |
| `Guard.GuardJoin` | app/handlers/guard.py:414-466 | windows and lock periods are in hours. The detector triggers as `AntiRaid.hit` says. The chat is locked (the `DENY_ALL` restriction applied) iff it triggered and the restriction went through, and then the lock time is `now + close hours`. The chat's join queue is the one `AntiRaid.hit` leaves. Lifting the restriction is scheduled iff the chat was locked and the notice was sent. Other chats are untouched |
| `Guard.TupleNoticeNeverSent` | app/handlers/guard.py:446-455 | the notice as written is a one-element tuple, which is never sent, so lifting the restriction is never scheduled |
| `Guard.TextNoticeSent` | app/handlers/guard.py:446-455 | the notice as a string is sent when the platform accepts it, with the same text |
| `Settings.ArgOfCommand` | app/handlers/settings.py:67-70 | `text.split(maxsplit=1)[1]` of `cmd arg` is `arg` |
| `Settings.ArgOfBare` | app/handlers/settings.py:67-70 | a command with nothing after it has no argument |
| `Settings.ParseInt` | app/handlers/settings.py:28-35 | `_parse_int` returns a value only when the stripped argument is all digits and the value lies in `min_v..max_v` |
| `Settings.ParseIntDecimal` | app/handlers/settings.py:28-35 | the decimal form of `n` is read back as `n` iff `n` is in range |
| `Settings.ParseIntDigits` | app/handlers/settings.py:28-35 | a digit string reads as its value iff that value is in range |
| `Settings.NumberArg` | app/handlers/settings.py:63-376 | the check each numeric command makes of its argument accepts only values in the command's range |
| `Settings.ReadNumber` | app/handlers/settings.py:63-376 | whatever a numeric command stores lies in its accepted range |
| `Settings.CheckedDigits` | app/handlers/settings.py:310-370 | the written-out refusals of `/rek_limit`, `/settime`, `/setflood` and `/setfloodtime` only accept values in 1..199, 1..10080, 3..100 and 3..719 |
| `Settings.NumberCommand` | app/handlers/settings.py:63-376 | `cmd n` stores `n` iff `n` lies in the command's range: `/limit` 0..5000, `/oyna` 1..60, `/yopish` 1..180, `/rek_limit` 1..199, `/settime` 1..10080, `/setflood` 3..100, `/setfloodtime` 3..719 |
| `Settings.WithNumberRestores` | app/db.py:149-156 | writing a numeric field back to its old value restores the settings, so the command moves no other field |
| `Settings.WithSwitchRestores` | app/handlers/settings.py:253-302 | the same for the eight on/off switches of `_toggle` |
| `Settings.ToggleNormalised` | app/handlers/settings.py:242-243 | `_norm_arg` ignores padding and letter case |
| `Settings.ToggleYoqWord` | app/handlers/settings.py:263 | `yoq` switches on |
| `Settings.ToggleOnWord` | app/handlers/settings.py:263 | `on` switches on |
| `Settings.ToggleOchirWord` | app/handlers/settings.py:266 | `o‘chir` switches off |
| `Settings.ToggleOchirAscii` | app/handlers/settings.py:266 | `ochir` switches off |
| `Settings.ToggleOffWord` | app/handlers/settings.py:266 | `off` switches off |
| `Settings.ToggleCommand` | app/handlers/settings.py:253-270 | a toggle command with an accepted word sets exactly that switch |
| `Settings.ApplyToggle` | app/handlers/settings.py:262-270 | an accepted toggle moves only its own switch |
| `Settings.DropAts` | app/handlers/settings.py:52 | `lstrip("@")` leaves no leading `@` |
| `Settings.ChannelArg` | app/handlers/settings.py:43-53 | a stored channel name has at least five characters from `[A-Za-z0-9_]` and no `@` |
| `Settings.DropAtsName` | app/handlers/settings.py:48-52 | a name that passes `CHANNEL_RE` loses at most its single leading `@` |
| `Settings.ChannelCommand` | app/handlers/settings.py:37-53 | `/set name` links `name` |
| `Settings.ChannelCommandAt` | app/handlers/settings.py:37-53 | `/set @name` links `name` too |
| `Settings.ChannelTooShort` | app/handlers/settings.py:26 | a four-character name is refused |
| `Settings.ChannelArgOf` | app/handlers/settings.py:43-53 | `/set` stores `lstrip("@")` of the argument iff it matches `CHANNEL_RE` |
| `Settings.ApplyChannel` | app/handlers/settings.py:37-54 | `/set` writes a valid channel name and no other field |
| `Settings.ForceAddArg` | app/handlers/settings.py:425-448 | `/add` switched on always carries a non-negative requirement |
| `Settings.ForceAddCommand` | app/handlers/settings.py:425-448 | `/add n` requires `n` invites; `/add off` switches force-add off |
| `Settings.ApplyNumber` | app/handlers/settings.py:63-376 | a numeric command writes an in-range value to its own field and no other field |
| `Settings.ApplyForceAdd` | app/handlers/settings.py:425-448 | `/add` stores something iff its argument is `off` or digits; `off` switches force-add off and keeps the required count; digits switch it on with that count; no other field changes |
| `Settings.ApplyForceText` | app/handlers/settings.py:451-459 | `/textforce` stores a non-empty prompt and no other field |
| `Settings.SettingsTable.constructor` | app/db.py:138-147 | no rows |
| `Settings.SettingsTable.GetOrCreate` | app/db.py:138-147 | returns the chat's row, or inserts and returns the column defaults |
| `Settings.SettingsTable.Update` | app/db.py:149-156 | `scalar_one` fails on a missing row, which then stays missing; otherwise the row is rewritten |
| `Settings.RunCommand` | app/handlers/settings.py:37-459 | a caller who may not manage the bot changes nothing; a command that only replies changes nothing; a command is saved iff the caller is allowed, the chat has a row and `Apply` accepts it; the row is then rewritten with `Apply`, and a missing row stays missing |
| `Settings.PyIntDecimal` | app/handlers/settings.py:192-196 | `int(str(n))`, `int("-" + str(n))` and `int("+" + str(n))` give `n`, `-n` and `n` |
| `Settings.PyIntUnsigned` | app/handlers/settings.py:193 | `int(str(n)) == n` |
| `Settings.PyIntSigned` | app/handlers/settings.py:193 | a signed decimal reads as its signed value |
| `Settings.BadButtonIffNotTwoColons` | app/handlers/settings.py:161-165 | callback data is refused as a bad button iff it does not hold exactly two colons |
| `Settings.TurnOffButton` | app/handlers/settings.py:161-168 | `ar:limit:set0` is the OFF press |
| `Settings.ShiftButton` | app/handlers/settings.py:120-125 | `ar:<key>:-n` and `ar:<key>:+n` shift `key` by `-n` and `n` |
| `Settings.LimitShiftFrame` | app/handlers/settings.py:198-200 | a `limit` press keeps the limit in 0..5000 and moves no other field |
| `Settings.WindowShiftFrame` | app/handlers/settings.py:201-203 | a `win` press keeps the window in 1..60 and moves no other field |
| `Settings.CloseShiftFrame` | app/handlers/settings.py:204-206 | a `close` press keeps the lock period `raid_close_min` in 1..180 and moves no other field |
| `Settings.OtherShiftFrame` | app/handlers/settings.py:198-206 | any other key changes nothing |
| `Settings.LimitShift` | app/handlers/settings.py:199 | inside the range the limit moves by exactly `d`; outside it stops at the nearer end |
| `Settings.WindowShift` | app/handlers/settings.py:202 | the same for the window and 1..60 |
| `Settings.CloseShift` | app/handlers/settings.py:205 | the same for the lock period `raid_close_min` and 1..180 |
| `Settings.PressPanel` | app/handlers/settings.py:140-213 | a caller who may not manage the chat changes nothing. Otherwise the row is created if missing and the press applied to it. `set0` stores a limit of 0 and forgets the chat's anti-raid state; no other press touches that state |
| `Settings.StorePress` | app/handlers/settings.py:167-206 | the row write of a press |
| `Settings.NewWordAsWritten` | app/handlers/settings.py:389-391 | `/yomonqosh` as written keeps a stripped, lower-case word of 2 to 30 characters |
| `Settings.PunctuatedWordAccepted` | app/handlers/settings.py:389-394 | such a word may hold an ASCII apostrophe or other punctuation, is saved, and then no message can ever match it |
| `Settings.ApostropheWord` | app/handlers/settings.py:389-394 | `so'k` is such a word |
| `Settings.NewWord` | app/handlers/settings.py:389-391 | the corrected command keeps the word in matcher form, 2 to 30 characters long |
| `Settings.NewWordStored` | app/db.py:281 | `add_bad_word` stores a word in matcher form unchanged |
| `Settings.NewWordMatchesItself` | app/handlers/guard.py:374-378 | a message repeating the admin's argument is caught by the word saved from it |
| `Settings.AddWordCommand` | app/handlers/settings.py:379-398 | `/yomonqosh` as written: the stripped, lower-cased argument is appended iff the caller may manage the bot, it is 2 to 30 characters long and new to the chat; otherwise nothing changes; no other table changes |
| `Settings.AddWordCommandFixed` | app/handlers/settings.py:379-398 | the corrected command: the argument in matcher form is appended under the same conditions, and `NewWordMatchesItself` shows it then catches the text it was taken from |
| `Settings.DeleteWordCommand` | app/handlers/settings.py:401-411 | the stripped, lower-cased argument is deleted; a bare command changes nothing |
| `Base.TagAt` | app/handlers/base.py:21 | a match of `</?([a-zA-Z0-9]+)[^>]*>` starts with `<`, ends at the first `>` after a non-empty name, and holds no other `>` |
| `Base.TagAtOf` | app/handlers/base.py:21 | a written tag is recognised with its own name and length |
| `Base.SafeHtml` | app/handlers/base.py:13-22 | the output is never longer than the input |
| `Base.NoAngleUnchanged` | app/handlers/base.py:21 | text with no `<` is returned unchanged |
| `Base.SafeHtmlAddsNothing` | app/handlers/base.py:13-22 | the output is a sub-multiset of the input: nothing is added |
| `Base.TagHandled` | app/handlers/base.py:15-21 | a tag whose name lower-cases to `b` is kept verbatim, attributes and all; any other tag is removed entirely |
| `Base.BoldKept` | app/handlers/base.py:15-19 | `<b>` and `</b>` survive |
| `Base.ItalicDropped` | app/handlers/base.py:20-21 | `<i>` is removed |
| `Base.FixedIffClean` | app/handlers/base.py:13-22 | the sanitiser leaves a text alone iff every tag it meets is a `b` tag |
| `Base.ChangedIsShorter` | app/handlers/base.py:21 | a text the sanitiser changes gets strictly shorter |
| `Base.StrayAngle` | app/handlers/base.py:21 | a `<` followed by another `<` starts no tag and is copied |
| `Base.StrayThenTag` | app/handlers/base.py:21 | on `<` followed by a removed tag and its name, the stray `<` is copied, the tag dropped and the rest copied |
| `Base.OnePassLeavesTag` | app/handlers/base.py:21 | one pass over `<<p>p>` leaves `<p>`, a tag it would itself remove |
| `Base.SafeHtmlFixed` | app/handlers/base.py:13-22 | the sanitiser repeated until nothing changes leaves a clean text, never longer |
| `Base.SafeHtmlFixedAgrees` | app/handlers/base.py:13-22 | the repeated sanitiser agrees with one pass wherever one pass already cleans, and its output is fixed |
| `Base.OnText` | app/handlers/base.py:24-25 | `_on` shows `ON` or `OFF` |
| `Base.OnTextReadsBack` | app/handlers/base.py:24-25 | the label reads back through `_toggle` as the flag it shows |
| `Base.AntiRaidOffIff` | app/handlers/base.py:28-32 | the summary shows `Anti-raid: OFF` iff `raid_limit <= 0`, and otherwise starts with the limit |
| `Ads.LineButton` | app/handlers/ads.py:102-110 | a line's button, when it has one, has a non-empty name of at most 64 characters and a stripped URL with an accepted prefix |
| `Ads.MakeButton` | app/handlers/ads.py:106-110 | two stripped halves make a valid button or none |
| `Ads.MakeButtonOf` | app/handlers/ads.py:106-110 | halves that already meet the rules make exactly that button, the URL kept verbatim |
| `Ads.ButtonLine` | app/handlers/ads.py:102-110 | a line written `name \| url` reads back as that button |
| `Ads.CutLine` | app/handlers/ads.py:105 | the line splits at its first `\|` only |
| `Ads.KeptValid` | app/handlers/ads.py:100-110 | every kept button is one the line reader returned |
| `Ads.KeptPrefix` | app/handlers/ads.py:101-110 | the first lines alone decide the first buttons |
| `Ads.KeptUpToAppend` | app/handlers/ads.py:101-110 | the buttons of two blocks of lines are those of the first followed by those of the second, line by line |
| `Ads.KeptAppend` | app/handlers/ads.py:101-110 | lines are read independently and in order |
| `Ads.ButtonsBounded` | app/handlers/ads.py:96-111 | at most ten buttons, each valid |
| `Ads.ParseButtons` | app/handlers/ads.py:96-111 | `_parse_buttons` returns the first ten buttons of the accepted lines, in input order |
| `Ads.KeepButtons` | app/handlers/ads.py:100-110 | the loop keeps, in order, the button of each accepted line |
| `Ads.ReadLine` | app/handlers/ads.py:102-110 | one iteration: each `continue` gives no button |
| `Ads.AdTitle` | app/handlers/ads.py:372 | the title is `Reklama` for blank text; otherwise it is the prefix of the stripped text whose length is `min(80, index of the first line break)`, i.e. the whole first line cut to 80 characters; it is non-empty and holds no line break |
| `Ads.TitleOf` | app/handlers/ads.py:372 | the same, on stripped text: a prefix of length `min(80, index of the first line break)` |
| `Ads.FirstLine` | app/handlers/ads.py:372 | `splitlines()[0]` of a non-empty stripped text: the non-empty prefix that runs up to the first line break, or to the end when there is none |
| `Ads.ShortTitle` | app/handlers/ads.py:372 | a one-line text of at most 80 characters is its own title |

## Left out

- Timers and background tasks are not modelled, because their point is asynchronous scheduling. This covers the deletion of warnings by `_send_temp` and `_delete_later`, the `_reopen` task (only whether it is scheduled is modelled), the retry and sleep of `safe_answer`, and the text repeater.
- Telegram calls are inputs (`Probe`, `permsOk`, `platformOk`, `inviterIsAdmin`). This covers `mute_user`, `unmute_user`, `set_chat_permissions`, `_is_subscribed`, `is_admin` and message deletion.
- Who may manage the chat or the bot is the input flag `manager` or `allowed`; the permission rules in app/utils/access.py are not modelled. In the source, `can_manage_bot` is declared with two parameters (app/utils/access.py:46) but called with three (app/handlers/settings.py:40), and it calls `can_manage_chat` without the `config` argument that function declares (app/utils/access.py:30, 49-55). Every command that checks it would fail at that call; the model assumes the check answers.
- The SQL engine, sessions and transactions are not modelled; the tables are maps. This also covers `touch_chat`, `touch_user`, the `list_active_*` and `set_*_active` methods, saved-ad storage and the bot-wide admin list.
- Clocks are integers. `time.monotonic()` floats and `datetime.utcnow()` become whole seconds, and `date.today()` becomes a day number. The 30-second `_last_touch` throttle of `guard_all` is not modelled.
- `Moderation.TextHash`: SHA-256 is a parameter function `digest`; only "equal normal forms give equal hashes" is stated.
- `Moderation.HasLink`: the bare-domain alternative of `URL_RE` (app/utils/moderation.py:21-26) is left out. Its look-arounds and label grammar are out of scope, so the model finds fewer links than the source on texts such as `example.com`.
- `Text.Lower`: `str.lower()` is modelled for the capitals of ASCII, Latin-1 (U+00C0 to U+00DE), Latin Extended-A (U+0100 to U+017E, except U+0130, whose lower case is two characters) and Cyrillic (U+0400 to U+052F). Other capitals, Latin Extended-B and Greek among them, are kept as they are, so a bad word or link written in them is missed where the source would lower-case it.
- `Text.IsWordChar`: `\w` is modelled on exactly these code points: ASCII letters and digits, `_`, U+00AA, U+00B2, U+00B3, U+00B5, U+00B9, U+00BA, U+00BC..U+00BE, U+00C0..U+024F except U+00D7 and U+00F7, U+0400..U+0481, U+048A..U+052F, U+02BB and U+02BC. Everything else that Python's `\w` matches (Latin Extended Additional, Greek, Arabic, other scripts' letters and digits, Unicode digits and numerals outside Latin-1) is treated as a non-word character.
- Reply texts are not modelled. This covers warnings, prompts, `_mention`, `_append_force_text` and `hd.quote`: outcomes carry the rule and numbers, not the text. The full `settings_text` summary is left out too; only its anti-raid line and `_on` are modelled.
- Keyboards, help text, the ads editor dialogue and broadcast loop, config loading and wiring are not modelled: they are UI and setup.
- `guard_service_messages` and `guard_leave` are not modelled; each only deletes a message when `hide_service_msgs` is set. `GuardJoin` records the same flag.
- Commands that are thin wrappers over a modelled table method are not modelled separately: `/botadmin_add`, `/botadmin_del`, `/priv`, `/delson`, `/clean`, `/deforce`, `/unmute`, `/yomonlist`.
- `/text_time` is not modelled: it stores its raw argument string in an integer column.
- `Guard.Process`: `_handle_violation` reloads the settings and re-asks the manager check; the model reads both once per message.
- `Settings.ParseInt`: `str.isdigit()` and `int()` are modelled on the ASCII digits 0 to 9. Python also accepts the other Unicode decimal digits, so `/limit ٣` stores 3 in the source but is refused by the model. Characters such as `²` pass `isdigit()` but make `int()` raise `ValueError`, an error path the model cannot reach.
- `Settings.PyInt`: `int()` on a panel button also accepts `_` between digits (`int("1_0") == 10`) and non-ASCII digits; the model reads neither. The bot's own buttons send neither.
- `Store.DB.ListBadWords`: the model takes the first `limit` words in insertion order. The query (app/db.py:306-311) has no `ORDER BY`, and the unique index on `(chat_id, word)` can make the database return the words in word order. With more than 200 words, that order decides which words `Guard.Scanned` scans.
- `Flood.AntiFlood.Hit` and `Raid.AntiRaid.Hit` require a non-decreasing clock for the key, as `time.monotonic()` guarantees.

Behaviour of the code worth noting:

- Anti-same keeps the old fingerprint after a repeat; it is replaced only by a message that is not a repeat (app/handlers/guard.py:307-316).
- Bad words match whole tokens only (app/handlers/guard.py:374-378). There is no substring match with a minimum length.
- Channel posts are blocked with no exception for the linked channel (app/handlers/guard.py:291).
- Force-add exempts Telegram admins and privileged users, not managers (app/handlers/guard.py:182-183).
- There is no command passthrough step in `_process`.
- A mute ends through the platform's `until_date`; no unmute timer is scheduled.
- Pressing OFF on the panel clears the in-memory raid state and tries to lift the restriction, but a `_reopen` task already scheduled still runs.

## Findings

| source | as written | input that shows it | evidently intended | confidence | as-written member | corrected member |
|---|---|---|---|---|---|---|
| app/handlers/guard.py:446-455 | the anti-raid notice is built as `text = (f"..." f"...",)`, a one-element tuple. Sending a tuple fails, and the `except` returns before `_reopen` is scheduled. The `DENY_ALL` restriction, already applied by `set_permissions` and `set_locked`, is never lifted: polls, stickers and other messages, link previews and invites stay denied until a manager presses OFF | any join burst that reaches `raid_limit` | send the string, then schedule the lifting of the restriction | not executed | `Guard.TupleNoticeNeverSent` | `Guard.TextNoticeSent` |
| app/handlers/settings.py:389-394 | `/yomonqosh` saves the word only stripped and lower-cased. The matcher turns every non-word character of a message into a space, so a saved word holding an ASCII apostrophe can never match | `/yomonqosh so'k`, then any message containing `so'k` | save the word in the matcher's own form | not executed | `Settings.PunctuatedWordAccepted` | `Settings.AddWordCommandFixed` |
| app/handlers/base.py:21 | `safe_html` makes a single `re.sub` pass. Removing a tag can join the text around it into a new disallowed tag | `<<p>p>` gives `<p>` | no tag other than `b` in the output | not executed | `Base.OnePassLeavesTag` | `Base.SafeHtmlFixedAgrees` |
