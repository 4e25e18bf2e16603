/** The in-memory flood detector: per (chat, user), a queue of the times of
    that user's recent messages. */
module Flood {
  import opened Window

  class AntiFlood {
    /** `_data`: (chat_id, user_id) -> timestamps in arrival order. */
    var data: map<(int, int), seq<int>>

    /** Every queue is in arrival order of a clock that never goes back. */
    ghost predicate Valid()
      reads this
    {
      forall k :: k in data ==> Sorted(data[k])
    }

    /** The queue of a key; an absent key reads as an empty queue. */
    function Queue(chatId: int, userId: int): seq<int>
      reads this
    {
      if (chatId, userId) in data then data[(chatId, userId)] else []
    }

    constructor ()
      ensures Valid() && data == map[]
    {
      data := map[];
    }

    /** Records a message at time `now` and reports whether the user sent
        more than `maxMsgs` messages within the last `windowSec` seconds.
        The caller's clock is monotonic: `now` is no earlier than any
        timestamp already stored for the key. */
    method Hit(chatId: int, userId: int, now: int, windowSec: int, maxMsgs: int) returns (exceeded: bool)
      requires Valid()
      requires UpTo(Queue(chatId, userId), now)
      modifies this
      ensures Valid()
      ensures data == old(data)[(chatId, userId) := Evict(old(Queue(chatId, userId)) + [now], now - windowSec)]
      ensures exceeded <==> |data[(chatId, userId)]| > maxMsgs
      ensures Within(data[(chatId, userId)], now - windowSec, now)
    {
      var key := (chatId, userId);
      var times := if key in data then data[key] else [];
      assert times == Queue(chatId, userId);
      ghost var appended := times + [now];
      StepInWindow(times, [now], now, windowSec);
      times := times + [now];
      var cutoff := now - windowSec;
      while times != [] && times[0] < cutoff
        invariant Evict(times, cutoff) == Evict(appended, cutoff)
        decreases |times|
      {
        times := times[1..];
      }
      assert times == Evict(appended, cutoff);
      assert Sorted(times);
      data := data[key := times];
      exceeded := |times| > maxMsgs;
    }

    /** Forgets every queue of chat `chatId` (`cleanup_chat`). */
    method CleanupChat(chatId: int)
      requires Valid()
      modifies this
      ensures Valid()
      ensures data == map k | k in old(data) && k.0 != chatId :: old(data)[k]
    {
      var keys := data.Keys;
      while keys != {}
        invariant keys <= old(data).Keys
        invariant data == map k | k in old(data) && (k in keys || k.0 != chatId) :: old(data)[k]
        decreases keys
      {
        var k :| k in keys;
        if k.0 == chatId {
          data := data - {k};
        }
        keys := keys - {k};
      }
    }

    /** Forgets the queue of one user in one chat (`clear_user`). */
    method ClearUser(chatId: int, userId: int)
      requires Valid()
      modifies this
      ensures Valid()
      ensures data == old(data) - {(chatId, userId)}
    {
      data := data - {(chatId, userId)};
    }
  }

  /** `hit` reports a flood exactly when more than `maxMsgs` messages fall
      in the window: with a queue of `k` messages all inside the window, the
      `(k+1)`-th is a flood iff `k + 1 > maxMsgs`, so `maxMsgs` messages in
      a window are always allowed. */
  lemma {:induction false} FloodThreshold(q: seq<int>, now: int, windowSec: int, maxMsgs: int)
    requires windowSec >= 0
    requires Sorted(q) && Within(q, now - windowSec, now)
    ensures |Evict(q + [now], now - windowSec)| == |q| + 1
    ensures (|Evict(q + [now], now - windowSec)| > maxMsgs) <==> |q| >= maxMsgs
  {
    StepInWindow(q, [now], now, windowSec);
    assert Within(q + [now], now - windowSec, now);
    CountInsideWindow(q + [now], now, windowSec);
  }
}
