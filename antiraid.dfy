/** The in-memory raid detector: per chat, the times of recent joins and
    the time until which the chat is locked (under the anti-raid
    restriction). */
module Raid {
  import opened Common
  import opened Window

  /** `RaidState`: join times in arrival order; `lockedUntil == 0` means
      the chat was never locked (the source's falsy `0.0`). */
  datatype RaidState = RaidState(joins: seq<int>, lockedUntil: int)

  const Fresh := RaidState([], 0)

  /** The chat is locked at `now`: a lock time is set and not yet reached. */
  predicate IsLocked(st: RaidState, now: int) {
    st.lockedUntil != 0 && now < st.lockedUntil
  }

  /** Number of join events recorded for `joinCount` members joining at once
      (`max(1, join_count)`). */
  function Burst(joinCount: int): (n: nat)
    ensures n >= 1 && n >= joinCount
    ensures joinCount >= 1 ==> n == joinCount
  {
    if joinCount >= 1 then joinCount else 1
  }

  /** The state a counted join burst leaves: `n` copies of `now` appended,
      then the stale joins evicted; the lock time is kept. */
  function AfterBurst(st: RaidState, n: nat, now: int, windowSec: int): RaidState
  {
    RaidState(Evict(st.joins + Repeat(now, n), now - windowSec), st.lockedUntil)
  }

  class AntiRaid {
    /** `_chats`: chat id -> raid state. */
    var chats: map<int, RaidState>

    ghost predicate Valid()
      reads this
    {
      forall c :: c in chats ==> Sorted(chats[c].joins)
    }

    /** The state of a chat; an absent chat reads as a fresh state. */
    function State(chatId: int): RaidState
      reads this
    {
      if chatId in chats then chats[chatId] else Fresh
    }

    constructor ()
      ensures Valid() && chats == map[]
    {
      chats := map[];
    }

    /** Records `joinCount` joins at time `now` and reports whether at least
        `limit` joins fall within the last `windowSec` seconds. A limit of
        zero or less disables the detector and touches nothing; a locked
        chat is not counted again while the lock lasts. */
    method Hit(chatId: int, joinCount: int, now: int, windowSec: int, limit: int) returns (triggered: bool)
      requires Valid()
      requires UpTo(State(chatId).joins, now)
      modifies this
      ensures Valid()
      ensures limit <= 0 ==> !triggered && chats == old(chats)
      ensures limit > 0 && IsLocked(old(State(chatId)), now) ==> !triggered && chats == old(chats)
      ensures limit > 0 && !IsLocked(old(State(chatId)), now) ==>
        chats == old(chats)[chatId := AfterBurst(old(State(chatId)), Burst(joinCount), now, windowSec)]
        && (triggered <==> |chats[chatId].joins| >= limit)
    {
      if limit <= 0 {
        return false;
      }
      var st := if chatId in chats then chats[chatId] else Fresh;
      assert st == State(chatId);
      if st.lockedUntil != 0 && now < st.lockedUntil {
        return false;
      }
      var n := Burst(joinCount);
      StepInWindow(st.joins, Repeat(now, n), now, windowSec);
      var joins := st.joins;
      for i := 0 to n
        invariant joins == st.joins + Repeat(now, i)
      {
        joins := joins + [now];
      }
      ghost var appended := joins;
      var cutoff := now - windowSec;
      while joins != [] && joins[0] < cutoff
        invariant Evict(joins, cutoff) == Evict(appended, cutoff)
        decreases |joins|
      {
        joins := joins[1..];
      }
      chats := chats[chatId := RaidState(joins, st.lockedUntil)];
      triggered := |joins| >= limit;
    }

    /** Locks the chat until `now + seconds`, creating its state if needed;
        the recorded joins are kept. */
    method SetLocked(chatId: int, now: int, seconds: int)
      requires Valid()
      modifies this
      ensures Valid()
      ensures chats == old(chats)[chatId := RaidState(old(State(chatId)).joins, now + seconds)]
    {
      var st := if chatId in chats then chats[chatId] else Fresh;
      chats := chats[chatId := st.(lockedUntil := now + seconds)];
    }

    /** Forgets everything about a chat. */
    method Clear(chatId: int)
      requires Valid()
      modifies this
      ensures Valid()
      ensures chats == old(chats) - {chatId}
    {
      chats := chats - {chatId};
    }
  }

  /** With a positive limit, a chat that is not locked and has no recent
      joins triggers on a burst exactly when the burst alone reaches the
      limit: fewer than `limit` simultaneous joins never lock the chat. */
  lemma BurstThreshold(st: RaidState, joinCount: int, now: int, windowSec: int, limit: int)
    requires windowSec >= 0 && st.joins == []
    ensures |AfterBurst(st, Burst(joinCount), now, windowSec).joins| >= limit
        <==> Burst(joinCount) >= limit
  {
    assert st.joins + Repeat(now, Burst(joinCount)) == Repeat(now, Burst(joinCount));
    BurstIntoEmpty(now, windowSec, Burst(joinCount));
  }

  /** Joins already inside the window are all counted: with `k` recent joins
      on record, a burst of `n` triggers iff `k + n >= limit`. */
  lemma {:induction false} CountedJoins(st: RaidState, n: nat, now: int, windowSec: int, limit: int)
    requires windowSec >= 0
    requires Sorted(st.joins) && Within(st.joins, now - windowSec, now)
    ensures |AfterBurst(st, n, now, windowSec).joins| == |st.joins| + n
    ensures |AfterBurst(st, n, now, windowSec).joins| >= limit <==> |st.joins| + n >= limit
  {
    var all := st.joins + Repeat(now, n);
    StepInWindow(st.joins, Repeat(now, n), now, windowSec);
    assert Within(all, now - windowSec, now);
    CountInsideWindow(all, now, windowSec);
  }
}
