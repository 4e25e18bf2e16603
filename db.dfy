/** The counter tables of the database layer, as maps keyed like the
    tables' unique constraints: strikes, daily ad hits, anti-same message
    logs, per-chat bad words, force-add progress and privileges, and the
    per-chat bot administrators. Times are integer seconds. */
module Store {
  import opened Common
  import opened Text

  /** A `user_strikes` row: how many violations of one rule in a row, and when
      the last one happened. */
  datatype Strike = Strike(count: int, lastAt: int)

  /** A `user_message_logs` row: fingerprint and time of the last message. */
  datatype MsgLog = MsgLog(lastHash: string, lastAt: int)

  /** The value at `k`, or `dflt` when there is no row. */
  function Get<K, V>(m: map<K, V>, k: K, dflt: V): (v: V)
    ensures k in m ==> v == m[k]
    ensures k !in m ==> v == dflt
  {
    if k in m then m[k] else dflt
  }

  /** The upsert-and-add of `inc_ads_hits`/`inc_force_progress`: a missing
      row counts as 0; no other row changes. */
  function Bump<K(!new)>(m: map<K, int>, k: K, inc: int): (r: map<K, int>)
    ensures k in r && r[k] == Get(m, k, 0) + inc
    ensures forall j :: j != k ==> (j in r <==> j in m)
    ensures forall j :: j in m && j != k ==> r[j] == m[j]
  {
    m[k := Get(m, k, 0) + inc]
  }

  /** The `on_conflict_do_update` of `hit_strike`: a new row starts at 1;
      an existing row restarts at 1 when its last strike is older than the
      window, and goes up by one otherwise. Either way it is stamped `now`. */
  function NextStrike(prev: Option<Strike>, now: int, windowSec: int): (s: Strike)
    ensures s.lastAt == now
    ensures prev.None? ==> s.count == 1
    ensures prev.Some? && prev.value.lastAt < now - windowSec ==> s.count == 1
    ensures prev.Some? && prev.value.lastAt >= now - windowSec ==> s.count == prev.value.count + 1
  {
    match prev
    case None => Strike(1, now)
    case Some(p) => if p.lastAt < now - windowSec then Strike(1, now) else Strike(p.count + 1, now)
  }

  /** Stripped and with no upper-case letter. */
  predicate IsNormal(w: string) {
    IsStripped(w) && forall i :: 0 <= i < |w| ==> !IsUpper(w[i])
  }

  /** The key form the `bad_words` table stores: stripped and lower-cased. */
  function NormWord(w: string): (r: string)
    ensures IsNormal(r)
  {
    var s := Strip(w);
    var r := Lower(s);
    forall i | 0 <= i < |r| ensures !IsUpper(r[i]) {
      LowerCharFacts(s[i]);
    }
    assert IsStripped(r) by {
      if r != [] {
        LowerCharFacts(s[0]);
        LowerCharFacts(s[|s| - 1]);
      }
    }
    r
  }

  /** Normalising a stored word again changes nothing, so a word typed in
      any case and padding finds the row it was saved as. */
  lemma NormWordIdempotent(w: string)
    ensures NormWord(NormWord(w)) == NormWord(w)
  {
    NormalIsFixed(NormWord(w));
  }

  /** The normal words are exactly the ones normalisation leaves alone. */
  lemma NormalIsFixed(r: string)
    ensures IsNormal(r) <==> NormWord(r) == r
  {
    if IsNormal(r) {
      assert Strip(r) == r;
      forall i | 0 <= i < |r| ensures LowerChar(r[i]) == r[i] {
        LowerCharFacts(r[i]);
      }
      assert Lower(r) == r;
    }
  }

  predicate NoDuplicates<T(==)>(s: seq<T>) {
    forall i, j :: 0 <= i < j < |s| ==> s[i] != s[j]
  }

  /** A chat's word list as the table holds it: the unique constraint on
      (chat_id, word), and every word non-empty and in the normalised form
      `add_bad_word` writes. */
  predicate WordList(ws: seq<string>) {
    NoDuplicates(ws) && forall k :: 0 <= k < |ws| ==> ws[k] != [] && IsNormal(ws[k])
  }

  /** Every chat's word list in the table is well-formed. */
  ghost predicate WordTable(m: map<int, seq<string>>) {
    forall c :: c in m ==> WordList(m[c])
  }

  lemma StoredWordList(m: map<int, seq<string>>, c: int)
    requires WordTable(m)
    ensures WordList(Get(m, c, []))
  {
  }

  lemma WordTableSet(m: map<int, seq<string>>, c: int, ws: seq<string>)
    requires WordTable(m) && WordList(ws)
    ensures WordTable(m[c := ws])
  {
  }

  /** Appending a new normalised word keeps a word list well-formed. */
  lemma AppendWordList(ws: seq<string>, w: string)
    requires WordList(ws) && w != [] && IsNormal(w) && w !in ws
    ensures WordList(ws + [w])
  {
    var r := ws + [w];
    forall k | 0 <= k < |r| ensures r[k] != [] && IsNormal(r[k]) {
      if k < |ws| {
        assert r[k] == ws[k];
      }
    }
    forall i, j | 0 <= i < j < |r| ensures r[i] != r[j] {
      assert r[i] == ws[i];
      if j == |ws| {
        assert r[j] == w;
      } else {
        assert r[j] == ws[j];
      }
    }
  }

  /** `ws` with every `w` deleted, order kept. */
  function Without(ws: seq<string>, w: string): (r: seq<string>)
    ensures forall x :: x in r <==> x in ws && x != w
    ensures |r| <= |ws|
  {
    if ws == [] then []
    else (if ws[0] == w then [] else [ws[0]]) + Without(ws[1..], w)
  }

  /** Deleting a word keeps a well-formed word list well-formed. */
  lemma {:induction false} WithoutWordList(ws: seq<string>, w: string)
    requires WordList(ws)
    ensures WordList(Without(ws, w))
    decreases |ws|
  {
    if ws != [] {
      var rest := ws[1..];
      assert WordList(rest) by {
        forall i, j | 0 <= i < j < |rest| ensures rest[i] != rest[j] {
          assert rest[i] == ws[i + 1] && rest[j] == ws[j + 1];
        }
      }
      WithoutWordList(rest, w);
      var tail := Without(rest, w);
      assert ws[0] !in rest by {
        forall j | 0 <= j < |rest| ensures rest[j] != ws[0] {
          assert rest[j] == ws[j + 1];
        }
      }
      var r := Without(ws, w);
      if ws[0] != w {
        assert r == [ws[0]] + tail;
        forall i, j | 0 <= i < j < |r| ensures r[i] != r[j] {
          if i == 0 {
            assert r[j] == tail[j - 1];
            assert r[j] in rest;
          } else {
            assert r[i] == tail[i - 1] && r[j] == tail[j - 1];
          }
        }
        forall k | 0 <= k < |r| ensures r[k] != [] && IsNormal(r[k]) {
          if k > 0 {
            assert r[k] == tail[k - 1];
          }
        }
      }
    }
  }

  /** Applies `hit_strike` at each of `times` in turn to a key with no row. */
  function Replay(times: seq<int>, windowSec: int): (s: Strike)
    requires |times| >= 1
    decreases |times|
  {
    var prev := if |times| == 1 then None else Some(Replay(times[..|times| - 1], windowSec));
    NextStrike(prev, times[|times| - 1], windowSec)
  }

  /** The strike ladder: after a series of violations the count is the
      length of the latest streak, a streak being broken exactly where a
      violation comes more than the window after the previous one. */
  lemma {:induction false} StrikeStreak(times: seq<int>, windowSec: int)
    requires |times| >= 1
    ensures Replay(times, windowSec).lastAt == times[|times| - 1]
    ensures 1 <= Replay(times, windowSec).count <= |times|
    ensures forall i :: |times| - Replay(times, windowSec).count < i < |times| ==>
      times[i - 1] >= times[i] - windowSec
    ensures Replay(times, windowSec).count < |times| ==>
      times[|times| - Replay(times, windowSec).count - 1] < times[|times| - Replay(times, windowSec).count] - windowSec
    decreases |times|
  {
    if |times| > 1 {
      var pre := times[..|times| - 1];
      StrikeStreak(pre, windowSec);
      var p := Replay(pre, windowSec);
      var c := Replay(times, windowSec).count;
      if p.lastAt >= times[|times| - 1] - windowSec {
        assert c == p.count + 1;
        forall i | |times| - c < i < |times| ensures times[i - 1] >= times[i] - windowSec {
          if i < |times| - 1 {
            assert times[i - 1] == pre[i - 1] && times[i] == pre[i];
          }
        }
        if c < |times| {
          assert times[|times| - c - 1] == pre[|pre| - p.count - 1];
          assert times[|times| - c] == pre[|pre| - p.count];
        }
      }
    }
  }

  class DB {
    /** `user_strikes`, keyed by (chat, user, rule). */
    var strikes: map<(int, int, string), Strike>
    /** `user_daily_counters.ads_hits`, keyed by (chat, user, day). */
    var adsHits: map<(int, int, int), int>
    /** `user_message_logs`, keyed by (chat, user). */
    var msgLogs: map<(int, int), MsgLog>
    /** `bad_words`: per chat, the stored words in insertion order. */
    var badWords: map<int, seq<string>>
    /** `force_add_progress.added_count`, keyed by (chat, user). */
    var forceProgress: map<(int, int), int>
    /** `force_add_priv`: the (chat, user) pairs exempt from force-add. */
    var forcePriv: set<(int, int)>
    /** `chat_bot_admins`: the (chat, user) pairs named bot admins. */
    var chatBotAdmins: set<(int, int)>

    /** Every chat's bad-word list is well-formed. */
    ghost predicate Valid()
      reads this
    {
      WordTable(badWords)
    }

    function Words(chatId: int): seq<string>
      reads this
    {
      Get(badWords, chatId, [])
    }

    constructor ()
      ensures Valid()
      ensures strikes == map[] && adsHits == map[] && msgLogs == map[] && badWords == map[]
      ensures forceProgress == map[] && forcePriv == {} && chatBotAdmins == {}
    {
      strikes, adsHits, msgLogs, badWords := map[], map[], map[], map[];
      forceProgress, forcePriv, chatBotAdmins := map[], {}, {};
    }

    /** `hit_strike`: records one violation of `rule` at `now` and returns the
        new count. Only that key's row changes. */
    method HitStrike(chatId: int, userId: int, rule: string, now: int, windowSec: int) returns (count: int)
      modifies this
      ensures strikes == old(strikes)[(chatId, userId, rule) :=
        NextStrike(if (chatId, userId, rule) in old(strikes) then Some(old(strikes)[(chatId, userId, rule)]) else None, now, windowSec)]
      ensures count == strikes[(chatId, userId, rule)].count
      ensures adsHits == old(adsHits) && msgLogs == old(msgLogs) && badWords == old(badWords)
      ensures forceProgress == old(forceProgress) && forcePriv == old(forcePriv) && chatBotAdmins == old(chatBotAdmins)
    {
      var key := (chatId, userId, rule);
      var prev := if key in strikes then Some(strikes[key]) else None;
      var s := NextStrike(prev, now, windowSec);
      strikes := strikes[key := s];
      count := s.count;
    }

    /** `reset_strike`: deletes the row of one (chat, user, rule). */
    method ResetStrike(chatId: int, userId: int, rule: string)
      modifies this
      ensures strikes == old(strikes) - {(chatId, userId, rule)}
      ensures adsHits == old(adsHits) && msgLogs == old(msgLogs) && badWords == old(badWords)
      ensures forceProgress == old(forceProgress) && forcePriv == old(forcePriv) && chatBotAdmins == old(chatBotAdmins)
    {
      strikes := strikes - {(chatId, userId, rule)};
    }

    /** `inc_ads_hits`: adds `inc` to the day's counter and returns the total. */
    method IncAdsHits(chatId: int, userId: int, day: int, inc: int) returns (total: int)
      modifies this
      ensures adsHits == Bump(old(adsHits), (chatId, userId, day), inc)
      ensures total == Get(old(adsHits), (chatId, userId, day), 0) + inc
      ensures strikes == old(strikes) && msgLogs == old(msgLogs) && badWords == old(badWords)
      ensures forceProgress == old(forceProgress) && forcePriv == old(forcePriv) && chatBotAdmins == old(chatBotAdmins)
    {
      var key := (chatId, userId, day);
      adsHits := Bump(adsHits, key, inc);
      total := adsHits[key];
    }

    /** `get_or_create_msglog`: the stored log, or a new one with an empty
        fingerprint stamped `now`. */
    method GetOrCreateMsgLog(chatId: int, userId: int, now: int) returns (log: MsgLog)
      modifies this
      ensures (chatId, userId) in old(msgLogs) ==> log == old(msgLogs)[(chatId, userId)]
      ensures (chatId, userId) !in old(msgLogs) ==> log == MsgLog("", now)
      ensures msgLogs == old(msgLogs)[(chatId, userId) := log]
      ensures strikes == old(strikes) && adsHits == old(adsHits) && badWords == old(badWords)
      ensures forceProgress == old(forceProgress) && forcePriv == old(forcePriv) && chatBotAdmins == old(chatBotAdmins)
    {
      var key := (chatId, userId);
      if key in msgLogs {
        log := msgLogs[key];
      } else {
        log := MsgLog("", now);
        msgLogs := msgLogs[key := log];
      }
    }

    /** `update_msglog`: upserts the fingerprint and time of a user's log. */
    method UpdateMsgLog(chatId: int, userId: int, lastHash: string, lastAt: int)
      modifies this
      ensures msgLogs == old(msgLogs)[(chatId, userId) := MsgLog(lastHash, lastAt)]
      ensures strikes == old(strikes) && adsHits == old(adsHits) && badWords == old(badWords)
      ensures forceProgress == old(forceProgress) && forcePriv == old(forcePriv) && chatBotAdmins == old(chatBotAdmins)
    {
      msgLogs := msgLogs[(chatId, userId) := MsgLog(lastHash, lastAt)];
    }

    /** `add_bad_word`: stores the normalised word; refuses an empty word or
        one the chat already has. */
    method AddBadWord(chatId: int, word: string) returns (added: bool)
      requires Valid()
      modifies this
      ensures Valid()
      ensures added <==> NormWord(word) != [] && NormWord(word) !in old(Words(chatId))
      ensures added ==> badWords == old(badWords)[chatId := old(Words(chatId)) + [NormWord(word)]]
      ensures !added ==> badWords == old(badWords)
      ensures strikes == old(strikes) && adsHits == old(adsHits) && msgLogs == old(msgLogs)
      ensures forceProgress == old(forceProgress) && forcePriv == old(forcePriv) && chatBotAdmins == old(chatBotAdmins)
    {
      var w := NormWord(word);
      if w == [] {
        return false;
      }
      var ws := Get(badWords, chatId, []);
      if w in ws {
        return false;
      }
      StoredWordList(badWords, chatId);
      AppendWordList(ws, w);
      WordTableSet(badWords, chatId, ws + [w]);
      badWords := badWords[chatId := ws + [w]];
      added := true;
    }

    /** `remove_bad_word`: deletes the normalised word if present; reports
        false only for an empty word. */
    method RemoveBadWord(chatId: int, word: string) returns (ok: bool)
      requires Valid()
      modifies this
      ensures Valid()
      ensures ok <==> NormWord(word) != []
      ensures ok ==> badWords == old(badWords)[chatId := Without(old(Words(chatId)), NormWord(word))]
      ensures !ok ==> badWords == old(badWords)
      ensures strikes == old(strikes) && adsHits == old(adsHits) && msgLogs == old(msgLogs)
      ensures forceProgress == old(forceProgress) && forcePriv == old(forcePriv) && chatBotAdmins == old(chatBotAdmins)
    {
      var w := NormWord(word);
      if w == [] {
        return false;
      }
      var ws := Get(badWords, chatId, []);
      var rest := Without(ws, w);
      StoredWordList(badWords, chatId);
      WithoutWordList(ws, w);
      WordTableSet(badWords, chatId, rest);
      badWords := badWords[chatId := rest];
      ok := true;
    }

    /** `list_bad_words`: the chat's first `limit` words. */
    method ListBadWords(chatId: int, limit: nat) returns (ws: seq<string>)
      ensures |ws| == Min(limit, |Words(chatId)|)
      ensures ws == Words(chatId)[..|ws|]
    {
      var all := Get(badWords, chatId, []);
      ws := if limit < |all| then all[..limit] else all;
    }

    /** `get_force_progress`: how many members the user has added; 0 when
        there is no row. */
    method GetForceProgress(chatId: int, userId: int) returns (n: int)
      ensures (chatId, userId) !in forceProgress ==> n == 0
      ensures (chatId, userId) in forceProgress ==> n == forceProgress[(chatId, userId)]
    {
      n := Get(forceProgress, (chatId, userId), 0);
    }

    /** `inc_force_progress`: adds `inc` to the user's progress. */
    method IncForceProgress(chatId: int, userId: int, inc: int)
      modifies this
      ensures forceProgress == Bump(old(forceProgress), (chatId, userId), inc)
      ensures strikes == old(strikes) && adsHits == old(adsHits) && msgLogs == old(msgLogs)
      ensures badWords == old(badWords) && forcePriv == old(forcePriv) && chatBotAdmins == old(chatBotAdmins)
    {
      forceProgress := Bump(forceProgress, (chatId, userId), inc);
    }

    /** `reset_force_user`: deletes the user's progress row. */
    method ResetForceUser(chatId: int, userId: int)
      modifies this
      ensures forceProgress == old(forceProgress) - {(chatId, userId)}
      ensures strikes == old(strikes) && adsHits == old(adsHits) && msgLogs == old(msgLogs)
      ensures badWords == old(badWords) && forcePriv == old(forcePriv) && chatBotAdmins == old(chatBotAdmins)
    {
      forceProgress := forceProgress - {(chatId, userId)};
    }

    /** `clean_user_stats`: deletes the user's daily counters of every day,
        the anti-same log and the force-add progress in one chat; strikes,
        other users and other chats are kept. */
    method CleanUserStats(chatId: int, userId: int)
      modifies this
      ensures adsHits == map k | k in old(adsHits) && (k.0 != chatId || k.1 != userId) :: old(adsHits)[k]
      ensures msgLogs == old(msgLogs) - {(chatId, userId)}
      ensures forceProgress == old(forceProgress) - {(chatId, userId)}
      ensures strikes == old(strikes) && badWords == old(badWords)
      ensures forcePriv == old(forcePriv) && chatBotAdmins == old(chatBotAdmins)
    {
      adsHits := map k | k in adsHits && (k.0 != chatId || k.1 != userId) :: adsHits[k];
      msgLogs := msgLogs - {(chatId, userId)};
      forceProgress := forceProgress - {(chatId, userId)};
    }

    /** `deforce_chat`: deletes every force-add progress and privilege row
        of the chat. */
    method DeforceChat(chatId: int)
      modifies this
      ensures forceProgress == map k | k in old(forceProgress) && k.0 != chatId :: old(forceProgress)[k]
      ensures forcePriv == set k | k in old(forcePriv) && k.0 != chatId
      ensures strikes == old(strikes) && adsHits == old(adsHits) && msgLogs == old(msgLogs)
      ensures badWords == old(badWords) && chatBotAdmins == old(chatBotAdmins)
    {
      forceProgress := map k | k in forceProgress && k.0 != chatId :: forceProgress[k];
      forcePriv := set k | k in forcePriv && k.0 != chatId;
    }

    /** `add_chat_bot_admin`: inserts the pair unless it is already there,
        so adding twice is the same as adding once. */
    method AddChatBotAdmin(chatId: int, userId: int)
      modifies this
      ensures chatBotAdmins == old(chatBotAdmins) + {(chatId, userId)}
      ensures strikes == old(strikes) && adsHits == old(adsHits) && msgLogs == old(msgLogs)
      ensures badWords == old(badWords) && forceProgress == old(forceProgress) && forcePriv == old(forcePriv)
    {
      if (chatId, userId) !in chatBotAdmins {
        chatBotAdmins := chatBotAdmins + {(chatId, userId)};
      }
    }
  }

  /** Daily ad counters accumulate per day: `n` increments of 1 on a day with
      no row leave exactly `n`, and a new day starts again from zero. */
  lemma {:induction false} AdsHitsCount(m: map<(int, int, int), int>, chatId: int, userId: int, day: int, n: nat)
    requires (chatId, userId, day) !in m
    ensures Get(BumpTimes(m, (chatId, userId, day), n), (chatId, userId, day), 0) == n
    ensures forall k :: k in m && k != (chatId, userId, day) ==>
      k in BumpTimes(m, (chatId, userId, day), n) && BumpTimes(m, (chatId, userId, day), n)[k] == m[k]
  {
    if n > 0 {
      AdsHitsCount(m, chatId, userId, day, n - 1);
    }
  }

  /** `n` successive increments of 1 at `k`. */
  function BumpTimes<K(!new)>(m: map<K, int>, k: K, n: nat): map<K, int>
  {
    if n == 0 then m else Bump(BumpTimes(m, k, n - 1), k, 1)
  }
}
