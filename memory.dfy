/**
 * The short-term memory of `MemoryService`: a list of records capped at ten,
 * oldest first. Adding appends and, once the cap is exceeded, drops the
 * record at the front; lookup keeps the records of one user, in list order.
 */
module Memory {

  const MaxShortTerm := 10

  /** One entry of `short_term_memory`: `{"user_id", "content", "timestamp"}`. */
  datatype MemoryRecord = MemoryRecord(userId: string, content: string, timestamp: int)

  /** The last `n` elements of `s` (all of `s` when it is shorter), in order. */
  function LastN<T>(s: seq<T>, n: nat): (r: seq<T>)
    ensures |r| == if |s| <= n then |s| else n
  {
    if |s| <= n then s else s[|s| - n..]
  }

  /**
   * Keeping the last `n` of a history and then appending one record, dropping
   * the front one if that makes too many, keeps the last `n` of the longer
   * history: the window slides by exactly one record.
   */
  lemma LastNSlide<T>(h: seq<T>, x: T, n: nat)
    requires n > 0
    ensures var w := LastN(h, n) + [x];
      LastN(h + [x], n) == if |w| > n then w[1..] else w
  {
    var w := LastN(h, n) + [x];
    if |h| >= n {
      assert |w| > n;
      assert (h + [x])[|h| + 1 - n..] == h[|h| + 1 - n..] + [x];
      assert w[1..] == h[|h| - n..][1..] + [x];
      assert h[|h| - n..][1..] == h[|h| + 1 - n..];
    }
  }

  /** `[m for m in s if m["user_id"] == userId]`. */
  function FilterUser(s: seq<MemoryRecord>, userId: string): (r: seq<MemoryRecord>)
    ensures |r| <= |s|
  {
    if s == [] then []
    else FilterUser(s[..|s| - 1], userId) + (if s[|s| - 1].userId == userId then [s[|s| - 1]] else [])
  }

  /** The filter keeps every record of the user, as often as it occurs, and no other record. */
  lemma {:induction false} FilterUserCounts(s: seq<MemoryRecord>, userId: string)
    ensures forall m :: multiset(FilterUser(s, userId))[m] == if m.userId == userId then multiset(s)[m] else 0
  {
    if s != [] {
      var init, last := s[..|s| - 1], s[|s| - 1];
      assert s == init + [last];
      FilterUserCounts(init, userId);
    }
  }

  /**
   * Filtering distributes over concatenation, so it keeps the relative order
   * of the records it retains.
   */
  lemma {:induction false} FilterUserAppend(a: seq<MemoryRecord>, b: seq<MemoryRecord>, userId: string)
    ensures FilterUser(a + b, userId) == FilterUser(a, userId) + FilterUser(b, userId)
  {
    if b != [] {
      var init, last := b[..|b| - 1], b[|b| - 1];
      var tail := if last.userId == userId then [last] else [];
      assert (a + b)[..|a + b| - 1] == a + init;
      assert (a + b)[|a + b| - 1] == last;
      assert FilterUser(a + b, userId) == FilterUser(a + init, userId) + tail;
      assert FilterUser(b, userId) == FilterUser(init, userId) + tail;
      FilterUserAppend(a, init, userId);
    } else {
      assert a + b == a;
    }
  }

  /** `MemoryService`: the short-term store and its fixed capacity. */
  class MemoryService {
    var shortTermMemory: seq<MemoryRecord>
    const maxShortTerm: nat
    /** Every record ever added, oldest first. */
    ghost var added: seq<MemoryRecord>

    /** The store is always the most recent `maxShortTerm` records added, in insertion order. */
    ghost predicate Valid()
      reads this
    {
      maxShortTerm == MaxShortTerm && shortTermMemory == LastN(added, maxShortTerm)
    }

    /** `MemoryService()`: an empty store with a capacity of ten. */
    constructor ()
      ensures Valid()
      ensures shortTermMemory == [] && added == [] && maxShortTerm == 10
    {
      shortTermMemory := [];
      maxShortTerm := MaxShortTerm;
      added := [];
    }

    /**
     * `add_short_term_memory(user_id, content)`; `now` stands for
     * `datetime.utcnow()`. The record goes at the end; on overflow exactly
     * one record, the oldest, is dropped from the front.
     */
    method AddShortTermMemory(userId: string, content: string, now: int)
      requires Valid()
      modifies this
      ensures Valid()
      ensures added == old(added) + [MemoryRecord(userId, content, now)]
      ensures |shortTermMemory| <= maxShortTerm
      ensures shortTermMemory ==
        var grown := old(shortTermMemory) + [MemoryRecord(userId, content, now)];
        if |grown| > maxShortTerm then grown[1..] else grown
    {
      var rec := MemoryRecord(userId, content, now);
      shortTermMemory := shortTermMemory + [rec];
      if |shortTermMemory| > maxShortTerm {
        shortTermMemory := shortTermMemory[1..];
      }
      LastNSlide(added, rec, maxShortTerm);
      added := added + [rec];
    }

    /**
     * `get_short_term_memory(user_id)`: exactly the stored records of that
     * user, each as often as it is stored, and nothing else.
     */
    function GetShortTermMemory(userId: string): (r: seq<MemoryRecord>)
      reads this
      ensures forall m :: m in r ==> m.userId == userId && m in shortTermMemory
      ensures forall m :: m in shortTermMemory && m.userId == userId ==> m in r
      ensures forall m :: multiset(r)[m] == if m.userId == userId then multiset(shortTermMemory)[m] else 0
    {
      FilterUserCounts(shortTermMemory, userId);
      FilterUser(shortTermMemory, userId)
    }

    /** `save_long_term_memory(user_id, content)`: only logs; the short-term store is untouched. */
    method SaveLongTermMemory(userId: string, content: string)
      ensures shortTermMemory == old(shortTermMemory)
    {
    }
  }

  /**
   * Eleven adds to a fresh service: the first record is gone, the other ten
   * remain in the order they were added.
   */
  method ElevenAdds(records: seq<MemoryRecord>) returns (store: seq<MemoryRecord>)
    requires |records| == 11
    ensures store == records[1..]
  {
    var service := new MemoryService();
    var i := 0;
    while i < 11
      invariant 0 <= i <= 11
      invariant service.Valid() && service.added == records[..i]
    {
      service.AddShortTermMemory(records[i].userId, records[i].content, records[i].timestamp);
      assert records[..i + 1] == records[..i] + [records[i]];
      i := i + 1;
    }
    assert records[..11] == records;
    store := service.shortTermMemory;
  }
}
