/** The token window over a message history (`pkg/memory/store.go`, `pkg/memory/postgres.go`). */
module TokenWindow {

  type Message = string

  type Counter = Message -> int

  /** One token for four characters, but at least one. */
  function DefaultTokenCount(m: Message): (t: int)
    ensures t >= 1 && |m| < 4 * (t + 1) && (t == 1 || 4 * t <= |m|)
  {
    if |m| / 4 == 0 then 1 else |m| / 4
  }

  /** What the messages cost together. */
  function Cost(msgs: seq<Message>, counter: Counter): int {
    if msgs == [] then 0 else counter(msgs[0]) + Cost(msgs[1..], counter)
  }

  /** Every message costs what the counter says, and costs add up. */
  lemma {:induction false} CostsAddUp(a: seq<Message>, b: seq<Message>, m: Message, counter: Counter)
    ensures Cost([m], counter) == counter(m) && Cost(a + b, counter) == Cost(a, counter) + Cost(b, counter)
    decreases |a|
  {
    assert [m][1..] == [];
    if a == [] {
      assert a + b == b;
    } else {
      assert (a + b)[1..] == a[1..] + b;
      CostsAddUp(a[1..], b, m, counter);
    }
  }

  /** Whether every suffix from `start` on fits: what walking backwards within the budget admits. */
  ghost predicate FitsFrom(msgs: seq<Message>, maxTokens: int, counter: Counter, start: nat) {
    forall j: nat | start <= j <= |msgs| :: Cost(msgs[j..], counter) <= maxTokens
  }

  /** The longest suffix all of whose suffixes fit; without a positive limit, everything. */
  ghost predicate IsWindow(msgs: seq<Message>, maxTokens: int, counter: Counter, window: seq<Message>) {
    && |window| <= |msgs| && window == msgs[|msgs| - |window|..]
    && (maxTokens <= 0 ==> window == msgs)
    && (maxTokens > 0 ==> FitsFrom(msgs, maxTokens, counter, |msgs| - |window|))
    && (maxTokens > 0 && |window| < |msgs| ==> Cost(msgs[|msgs| - |window| - 1..], counter) > maxTokens)
  }

  /** `applyWindow` */
  method ApplyWindow(msgs: seq<Message>, maxTokens: int, counter: Counter) returns (window: seq<Message>)
    ensures IsWindow(msgs, maxTokens, counter, window)
  {
    if maxTokens <= 0 {
      return msgs;
    }
    var budget := maxTokens;
    var start := |msgs|;
    var i := |msgs| - 1;
    while i >= 0
      invariant -1 <= i < |msgs| && start == i + 1
      invariant budget == maxTokens - Cost(msgs[start..], counter)
      invariant FitsFrom(msgs, maxTokens, counter, start)
      decreases i
    {
      var cost := counter(msgs[i]);
      assert msgs[i..][1..] == msgs[i + 1..];
      if budget - cost < 0 {
        break;
      }
      budget := budget - cost;
      start := i;
      i := i - 1;
    }
    return msgs[start..];
  }

  lemma {:induction false} SuffixCostsLess(msgs: seq<Message>, counter: Counter, k: nat, j: nat)
    requires k <= j <= |msgs| && forall m :: counter(m) >= 0
    ensures Cost(msgs[j..], counter) <= Cost(msgs[k..], counter)
    decreases j - k
  {
    if k < j {
      assert msgs[k..][1..] == msgs[k + 1..];
      SuffixCostsLess(msgs, counter, k + 1, j);
    }
  }

  /** With a counter that is never negative the window is the longest suffix that fits: a suffix fits
      if and only if it starts no earlier. */
  lemma WindowIsLongestFit(msgs: seq<Message>, maxTokens: int, counter: Counter, window: seq<Message>, k: nat)
    requires k <= |msgs| && maxTokens > 0 && (forall m :: counter(m) >= 0) && IsWindow(msgs, maxTokens, counter, window)
    ensures Cost(msgs[k..], counter) <= maxTokens <==> |msgs| - k <= |window|
  {
    var start := |msgs| - |window|;
    if k < start { SuffixCostsLess(msgs, counter, k, start - 1); }
  }

  /** The window fits, and no longer suffix does. */
  ghost predicate IsLongestFit(msgs: seq<Message>, maxTokens: int, counter: Counter, window: seq<Message>) {
    && |window| <= |msgs| && window == msgs[|msgs| - |window|..]
    && Cost(window, counter) <= maxTokens
    && forall j: nat | j < |msgs| - |window| :: Cost(msgs[j..], counter) > maxTokens
  }

  ghost predicate NeverNegative(counter: Counter) {
    forall m :: counter(m) >= 0
  }

  ghost predicate NeverPositive(counter: Counter) {
    forall m :: counter(m) <= 0
  }

  /** With this counter, every window of a limited budget is the longest suffix that fits. */
  ghost predicate AlwaysLongest(counter: Counter) {
    forall msgs, maxTokens, window | maxTokens > 0 && IsWindow(msgs, maxTokens, counter, window) ::
      IsLongestFit(msgs, maxTokens, counter, window)
  }

  lemma {:induction false} NothingCosts(msgs: seq<Message>, counter: Counter)
    requires NeverPositive(counter)
    ensures Cost(msgs, counter) <= 0
    decreases |msgs|
  {
    if msgs != [] { NothingCosts(msgs[1..], counter); }
  }

  /** A cost below zero, behind two above it, hides that the whole conversation fits again. */
  lemma MixedCostsHideALongerFit(counter: Counter, gain: Message, price: Message)
    requires counter(gain) < 0 < counter(price)
    ensures var msgs, maxTokens := [gain, price, price], 2 * counter(price) - 1;
            && IsWindow(msgs, maxTokens, counter, [price])
            && !IsLongestFit(msgs, maxTokens, counter, [price])
  {
    var msgs, maxTokens := [gain, price, price], 2 * counter(price) - 1;
    assert msgs[3..] == [] && msgs[2..] == [price] && msgs[1..] == [price] + msgs[2..] && msgs[0..] == [gain] + msgs[1..];
    assert Cost(msgs[2..], counter) == counter(price) + Cost(msgs[2..][1..], counter);
    assert Cost(msgs[1..], counter) == counter(price) + Cost(msgs[1..][1..], counter);
    assert Cost(msgs[0..], counter) == counter(gain) + Cost(msgs[0..][1..], counter);
    assert FitsFrom(msgs, maxTokens, counter, 2);
  }

  /** The window is the longest suffix that fits, for all conversations and limits, exactly for the
      counters whose costs do not have both signs. */
  lemma LongestFitIffOneSign(counter: Counter)
    ensures AlwaysLongest(counter) <==> NeverNegative(counter) || NeverPositive(counter)
  {
    if NeverNegative(counter) || NeverPositive(counter) {
      forall msgs, maxTokens, window | maxTokens > 0 && IsWindow(msgs, maxTokens, counter, window)
        ensures IsLongestFit(msgs, maxTokens, counter, window)
      {
        OneSignLongest(msgs, maxTokens, counter, window);
      }
    } else {
      var gain :| counter(gain) < 0;
      var price :| counter(price) > 0;
      MixedCostsHideALongerFit(counter, gain, price);
    }
  }

  lemma OneSignLongest(msgs: seq<Message>, maxTokens: int, counter: Counter, window: seq<Message>)
    requires maxTokens > 0 && IsWindow(msgs, maxTokens, counter, window)
    requires NeverNegative(counter) || NeverPositive(counter)
    ensures IsLongestFit(msgs, maxTokens, counter, window)
  {
    var start := |msgs| - |window|;
    assert Cost(msgs[start..], counter) <= maxTokens;
    if NeverNegative(counter) {
      forall j: nat | j < start ensures Cost(msgs[j..], counter) > maxTokens {
        SuffixCostsLess(msgs, counter, j, start - 1);
      }
    } else {
      FreeMessagesAllFit(msgs, maxTokens, counter, window);
    }
  }

  lemma FreeMessagesAllFit(msgs: seq<Message>, maxTokens: int, counter: Counter, window: seq<Message>)
    requires maxTokens > 0 && IsWindow(msgs, maxTokens, counter, window) && NeverPositive(counter)
    ensures |window| == |msgs|
  {
    if |window| < |msgs| { NothingCosts(msgs[|msgs| - |window| - 1..], counter); }
  }

  /** The in-process store. */
  class MemoryStore {
    var messages: seq<Message>
    const tokenCounter: Counter

    constructor (tokenCounter: Counter)
      ensures messages == [] && this.tokenCounter == tokenCounter
    {
      this.messages, this.tokenCounter := [], tokenCounter;
    }

    method Append(msg: Message)
      modifies this`messages
      ensures messages == old(messages) + [msg]
    {
      messages := messages + [msg];
    }

    method Window(maxTokens: int) returns (window: seq<Message>)
      ensures IsWindow(messages, maxTokens, tokenCounter, window)
    {
      window := ApplyWindow(messages, maxTokens, tokenCounter);
    }
  }
}
