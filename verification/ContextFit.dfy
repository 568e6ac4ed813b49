/**
Fitting a conversation into a token budget by dropping its oldest messages, without touching the pinned ones.
*/
module ContextFit {
  import opened Options

  /** `id` is the object's identity: the pin on the latest error compares objects, not contents. */
  datatype Message = Message(id: nat, role: string, content: string)

  const ERROR_MARKERS := ["error", "failed", "denied", "conflict", "timed out"]

  predicate Contains(text: string, marker: string) {
    exists i :: 0 <= i <= |text| && marker <= text[i..]
  }

  predicate IsError(m: Message, fold: string -> string) {
    (m.role == "tool" || m.role == "tool_response")
    && exists i :: 0 <= i < |ERROR_MARKERS| && Contains(fold(m.content), ERROR_MARKERS[i])
  }

  /** The newest error after the first message. */
  function LatestError(messages: seq<Message>, fold: string -> string): (r: Option<Message>)
    ensures r.None? ==> forall i :: 1 <= i < |messages| ==> !IsError(messages[i], fold)
    ensures r.Some? ==> exists i :: 1 <= i < |messages| && messages[i] == r.value && IsError(messages[i], fold)
                                    && forall j :: i < j < |messages| ==> !IsError(messages[j], fold)
    decreases |messages|
  {
    if |messages| <= 1 then None
    else
      var last := messages[|messages| - 1];
      if IsError(last, fold) then Some(last) else LatestError(messages[..|messages| - 1], fold)
  }

  predicate Pinned(m: Message, latest: Option<Message>) { latest.Some? && m.id == latest.value.id }

  // ---------------------------------------------------------------- dropping the oldest

  /** `list` without its first `k` unpinned messages. */
  function Without(list: seq<Message>, latest: Option<Message>, k: nat): (r: seq<Message>)
    ensures |r| <= |list|
  {
    if list == [] || k == 0 then list
    else if Pinned(list[0], latest) then [list[0]] + Without(list[1..], latest, k)
    else Without(list[1..], latest, k - 1)
  }

  /** The messages of one kind, in order. */
  function Kind(list: seq<Message>, latest: Option<Message>, pinned: bool): (r: seq<Message>)
    ensures |r| <= |list|
  {
    if list == [] then []
    else (if Pinned(list[0], latest) == pinned then [list[0]] else []) + Kind(list[1..], latest, pinned)
  }

  predicate Subsequence(short: seq<Message>, long: seq<Message>) {
    if short == [] then true
    else if long == [] then false
    else Subsequence(short, long[1..]) || (short[0] == long[0] && Subsequence(short[1..], long[1..]))
  }

  function Middle(list: seq<Message>): seq<Message>
    requires |list| >= 2
  {
    list[1..|list| - 1]
  }

  function Framed(first: Message, middle: seq<Message>, last: Message): (r: seq<Message>)
    ensures |r| == |middle| + 2 && r[0] == first && r[|r| - 1] == last && Middle(r) == middle
  {
    [first] + middle + [last]
  }

  /** The conversation after `k` drops: only what lies between the first and the last message is touched. */
  function Reduced(messages: seq<Message>, latest: Option<Message>, k: nat): (r: seq<Message>)
    ensures |r| <= |messages|
  {
    if |messages| < 3 then messages
    else Framed(messages[0], Without(Middle(messages), latest, k), messages[|messages| - 1])
  }

  /** How many messages may be dropped at all. */
  function Droppable(messages: seq<Message>, latest: Option<Message>): nat {
    if |messages| < 3 then 0 else |Kind(Middle(messages), latest, false)|
  }

  lemma {:induction false} SubsequenceSkips(short: seq<Message>, long: seq<Message>)
    requires short != [] && Subsequence(short, long)
    ensures Subsequence(short[1..], long)
    decreases |long|
  {
    if Subsequence(short, long[1..]) {
      SubsequenceSkips(short, long[1..]);
    } else if short[1..] != [] {
      assert Subsequence(short[1..], long[1..]);
    }
  }

  lemma {:induction false} SubsequenceSelf(list: seq<Message>)
    ensures Subsequence(list, list)
  {
    if list != [] { SubsequenceSelf(list[1..]); }
  }

  lemma {:induction false} SubsequenceAppend(short: seq<Message>, long: seq<Message>, last: Message)
    requires Subsequence(short, long)
    ensures Subsequence(short + [last], long + [last])
    decreases |long|
  {
    if long == [] {
      assert short + [last] == [last] && long + [last] == [last];
      SubsequenceSelf([last]);
    } else {
      assert (long + [last])[1..] == long[1..] + [last];
      if short == [] || Subsequence(short, long[1..]) {
        assert short == [] ==> Subsequence(short, long[1..]);
        SubsequenceAppend(short, long[1..], last);
      } else {
        SubsequenceAppend(short[1..], long[1..], last);
        assert (short + [last])[1..] == short[1..] + [last];
      }
    }
  }

  /** Dropping keeps order, keeps every pinned message, and removes exactly the oldest unpinned ones. */
  lemma {:induction false} WithoutDropsOldest(list: seq<Message>, latest: Option<Message>, k: nat)
    requires k <= |Kind(list, latest, false)|
    ensures var r := Without(list, latest, k);
            Subsequence(r, list) && Kind(r, latest, true) == Kind(list, latest, true)
            && Kind(r, latest, false) == Kind(list, latest, false)[k..] && |r| == |list| - k
    decreases |list|
  {
    if list == [] || k == 0 {
      SubsequenceSelf(list);
    } else if Pinned(list[0], latest) {
      WithoutDropsOldest(list[1..], latest, k);
      PinnedInFront(list[0], Without(list[1..], latest, k), latest);
      SubsequencePrepend(list[0], Without(list[1..], latest, k), list[1..]);
      assert list == [list[0]] + list[1..];
    } else {
      WithoutDropsOldest(list[1..], latest, k - 1);
    }
  }

  lemma PinnedInFront(first: Message, rest: seq<Message>, latest: Option<Message>)
    requires Pinned(first, latest)
    ensures Kind([first] + rest, latest, true) == [first] + Kind(rest, latest, true)
    ensures Kind([first] + rest, latest, false) == Kind(rest, latest, false)
  {
    assert ([first] + rest)[1..] == rest;
  }

  /** With every unpinned message dropped the middle is its pinned messages. */
  lemma {:induction false} NothingLeftButPinned(list: seq<Message>, latest: Option<Message>)
    ensures Without(list, latest, |Kind(list, latest, false)|) == Kind(list, latest, true)
    decreases |list|
  {
    if list != [] {
      NothingLeftButPinned(list[1..], latest);
      if |Kind(list, latest, false)| == 0 { AllPinned(list, latest); }
    }
  }

  lemma {:induction false} AllPinned(list: seq<Message>, latest: Option<Message>)
    requires |Kind(list, latest, false)| == 0
    ensures Kind(list, latest, true) == list
    decreases |list|
  {
    if list != [] { AllPinned(list[1..], latest); }
  }

  /** `index` is the first unpinned position. */
  predicate FirstUnpinned(list: seq<Message>, latest: Option<Message>, index: nat) {
    index < |list| && !Pinned(list[index], latest) && forall j :: 0 <= j < index ==> Pinned(list[j], latest)
  }

  function Pop(list: seq<Message>, index: nat): seq<Message>
    requires index < |list|
  {
    list[..index] + list[index + 1..]
  }

  lemma PopBehindFirst(list: seq<Message>, latest: Option<Message>, first: Message, i: nat)
    requires FirstUnpinned([first] + list, latest, i) && Pinned(first, latest)
    ensures i > 0 && FirstUnpinned(list, latest, i - 1) && Pop([first] + list, i) == [first] + Pop(list, i - 1)
  {
    var longer := [first] + list;
    assert forall j :: 0 <= j < |list| ==> longer[j + 1] == list[j];
  }

  /** Popping the first unpinned message is one more drop. */
  lemma {:induction false} PopIsOneMoreDrop(list: seq<Message>, latest: Option<Message>, k: nat, i: nat)
    requires FirstUnpinned(Without(list, latest, k), latest, i)
    ensures Without(list, latest, k + 1) == Pop(Without(list, latest, k), i)
    decreases |list|
  {
    if Pinned(list[0], latest) {
      assert Without(list, latest, k) == [list[0]] + Without(list[1..], latest, k);
      PopBehindFirst(Without(list[1..], latest, k), latest, list[0], i);
      PopIsOneMoreDrop(list[1..], latest, k, i - 1);
    } else if k > 0 {
      PopIsOneMoreDrop(list[1..], latest, k - 1, i);
    } else {
      assert Pop(list, 0) == list[1..];
    }
  }

  lemma {:induction false} NoneUnpinned(list: seq<Message>, latest: Option<Message>)
    requires forall j :: 0 <= j < |list| ==> Pinned(list[j], latest)
    ensures Kind(list, latest, false) == []
    decreases |list|
  {
    if list != [] {
      assert forall j :: 0 <= j < |list| - 1 ==> list[1..][j] == list[j + 1];
      NoneUnpinned(list[1..], latest);
    }
  }

  lemma {:induction false} UnpinnedCounts(list: seq<Message>, latest: Option<Message>, i: nat)
    requires i < |list| && !Pinned(list[i], latest)
    ensures Kind(list, latest, false) != []
    decreases |list|
  {
    if i > 0 { UnpinnedCounts(list[1..], latest, i - 1); }
  }

  lemma FramedSubsequence(first: Message, short: seq<Message>, long: seq<Message>, last: Message)
    requires Subsequence(short, long)
    ensures Subsequence(Framed(first, short, last), Framed(first, long, last))
  {
    SubsequenceAppend(short, long, last);
    SubsequencePrepend(first, short + [last], long + [last]);
    assert Framed(first, short, last) == [first] + (short + [last]);
    assert Framed(first, long, last) == [first] + (long + [last]);
  }

  lemma SubsequencePrepend(first: Message, short: seq<Message>, long: seq<Message>)
    requires Subsequence(short, long)
    ensures Subsequence([first] + short, [first] + long)
  {
    assert ([first] + short)[1..] == short && ([first] + long)[1..] == long;
  }

  /** What a reduction keeps, over the whole conversation. */
  lemma ReductionKeeps(messages: seq<Message>, latest: Option<Message>, k: nat)
    requires k <= Droppable(messages, latest)
    ensures var r := Reduced(messages, latest, k);
            Subsequence(r, messages) && |r| == |messages| - k
            && (messages != [] ==> r != [] && r[0] == messages[0] && r[|r| - 1] == messages[|messages| - 1])
  {
    if |messages| < 3 {
      SubsequenceSelf(messages);
    } else {
      var middle, last := Middle(messages), messages[|messages| - 1];
      WithoutDropsOldest(middle, latest, k);
      FramedSubsequence(messages[0], Without(middle, latest, k), middle, last);
      FramedMiddle(messages);
    }
  }

  lemma FramedMiddle(messages: seq<Message>)
    requires |messages| >= 2
    ensures Framed(messages[0], Middle(messages), messages[|messages| - 1]) == messages
  {
    var framed := Framed(messages[0], Middle(messages), messages[|messages| - 1]);
    forall i | 0 <= i < |messages| ensures framed[i] == messages[i] {
      assert 0 < i < |messages| - 1 ==> framed[i] == Middle(messages)[i - 1] == messages[i];
    }
  }

  /** Between the first and the last message the pinned ones all stay. */
  lemma ReductionKeepsPinned(messages: seq<Message>, latest: Option<Message>, k: nat)
    requires |messages| >= 2 && k <= Droppable(messages, latest)
    ensures var r := Reduced(messages, latest, k);
            |r| >= 2 && Kind(Middle(r), latest, true) == Kind(Middle(messages), latest, true)
  {
    if |messages| >= 3 { WithoutDropsOldest(Middle(messages), latest, k); }
  }

  /** Of the others exactly the `k` oldest are gone. */
  lemma ReductionDropsOldest(messages: seq<Message>, latest: Option<Message>, k: nat)
    requires |messages| >= 2 && k <= Droppable(messages, latest)
    ensures var r := Reduced(messages, latest, k);
            |r| >= 2 && k <= |Kind(Middle(messages), latest, false)|
            && Kind(Middle(r), latest, false) == Kind(Middle(messages), latest, false)[k..]
  {
    if |messages| >= 3 { WithoutDropsOldest(Middle(messages), latest, k); }
  }

  /** The latest error stays in every reduction. */
  lemma LatestErrorKept(messages: seq<Message>, fold: string -> string, k: nat)
    requires LatestError(messages, fold).Some?
    ensures var latest := LatestError(messages, fold);
            k <= Droppable(messages, latest) ==> latest.value in Reduced(messages, latest, k)
  {
    var latest := LatestError(messages, fold);
    var i :| 1 <= i < |messages| && messages[i] == latest.value;
    if k <= Droppable(messages, latest) {
      ReductionKeeps(messages, latest, k);
      var r := Reduced(messages, latest, k);
      if |messages| >= 3 && i < |messages| - 1 {
        var middle := Middle(messages);
        assert middle[i - 1] == latest.value;
        InKind(middle, latest, i - 1);
        WithoutDropsOldest(middle, latest, k);
        var kept := Without(middle, latest, k);
        KindComesFrom(kept, latest, latest.value);
        var j :| 0 <= j < |kept| && kept[j] == latest.value;
        assert Middle(r)[j] == r[j + 1];
      }
    }
  }

  lemma {:induction false} InKind(list: seq<Message>, latest: Option<Message>, i: nat)
    requires i < |list| && Pinned(list[i], latest)
    ensures list[i] in Kind(list, latest, true)
    decreases |list|
  {
    if i > 0 { InKind(list[1..], latest, i - 1); }
  }

  lemma {:induction false} KindComesFrom(list: seq<Message>, latest: Option<Message>, m: Message)
    requires m in Kind(list, latest, true)
    ensures m in list
    decreases |list|
  {
    if list != [] && m != list[0] { KindComesFrom(list[1..], latest, m); }
  }

  // ---------------------------------------------------------------- the loop

  /** `index` is the first position that may be dropped. */
  predicate Removable(messages: seq<Message>, latest: Option<Message>, index: nat) {
    1 <= index < |messages| - 1 && !Pinned(messages[index], latest) && forall j :: 1 <= j < index
                                                                          ==> Pinned(messages[j], latest)
  }

  predicate Stuck(messages: seq<Message>, latest: Option<Message>) {
    forall j :: 1 <= j < |messages| - 1 ==> Pinned(messages[j], latest)
  }

  /** `next(...)` over the removable positions. */
  method FirstRemovable(messages: seq<Message>, latest: Option<Message>) returns (index: Option<nat>)
    ensures match index case Some(i) => Removable(messages, latest, i) case None => Stuck(messages, latest)
  {
    var i := 1;
    while i < |messages| - 1
      invariant 1 <= i && forall j :: 1 <= j < i && j < |messages| - 1 ==> Pinned(messages[j], latest)
    {
      if !Pinned(messages[i], latest) { return Some(i); }
      i := i + 1;
    }
    return None;
  }

  lemma PopFramed(first: Message, middle: seq<Message>, last: Message, i: nat)
    requires 1 <= i <= |middle|
    ensures Pop(Framed(first, middle, last), i) == Framed(first, Pop(middle, i - 1), last)
  {
  }

  lemma PopReduces(messages: seq<Message>, latest: Option<Message>, k: nat, i: nat)
    requires k <= Droppable(messages, latest)
    requires Removable(Reduced(messages, latest, k), latest, i)
    ensures k < Droppable(messages, latest)
    ensures Reduced(messages, latest, k + 1) == Pop(Reduced(messages, latest, k), i)
  {
    var r, middle := Reduced(messages, latest, k), Middle(messages);
    var kept := Without(middle, latest, k);
    assert forall j :: 0 <= j < |kept| ==> Middle(r)[j] == r[j + 1];
    PopIsOneMoreDrop(middle, latest, k, i - 1);
    WithoutDropsOldest(middle, latest, k);
    UnpinnedCounts(kept, latest, i - 1);
    PopFramed(messages[0], kept, messages[|messages| - 1], i);
  }

  lemma NothingRemovable(messages: seq<Message>, latest: Option<Message>, k: nat)
    requires k <= Droppable(messages, latest)
    requires Stuck(Reduced(messages, latest, k), latest)
    ensures k == Droppable(messages, latest)
  {
    if |messages| >= 3 {
      var r, middle := Reduced(messages, latest, k), Middle(messages);
      var kept := Without(middle, latest, k);
      assert forall j :: 0 <= j < |kept| ==> Middle(r)[j] == r[j + 1];
      NoneUnpinned(kept, latest);
      WithoutDropsOldest(middle, latest, k);
    }
  }

  /** The first reduction within the budget. */
  ghost predicate FirstFit(messages: seq<Message>, latest: Option<Message>, cost: seq<Message> -> int, budget: int,
                           k: nat) {
    k <= Droppable(messages, latest) && cost(Reduced(messages, latest, k)) <= budget
    && forall j: nat :: j < k ==> cost(Reduced(messages, latest, j)) > budget
  }

  ghost predicate Tried(messages: seq<Message>, latest: Option<Message>, cost: seq<Message> -> int, budget: int,
                        k: nat) {
    k <= Droppable(messages, latest) && forall j: nat :: j < k ==> cost(Reduced(messages, latest, j)) > budget
  }

  lemma FittedMeansFits(messages: seq<Message>, latest: Option<Message>, cost: seq<Message> -> int, budget: int,
                        r: seq<Message>)
    requires Fitted(messages, latest, cost, budget, r)
    ensures !NeverFits(messages, latest, cost, budget)
  {
  }

  ghost predicate Fitted(messages: seq<Message>, latest: Option<Message>, cost: seq<Message> -> int, budget: int,
                         r: seq<Message>) {
    exists k: nat :: FirstFit(messages, latest, cost, budget, k) && r == Reduced(messages, latest, k)
  }

  ghost predicate NeverFits(messages: seq<Message>, latest: Option<Message>, cost: seq<Message> -> int, budget: int) {
    forall k: nat :: k <= Droppable(messages, latest) ==> cost(Reduced(messages, latest, k)) > budget
  }

  /** `_fit_without_mutating_pinned`: `None` when the budget is exceeded. */
  method Fit(messages: seq<Message>, cost: seq<Message> -> int, budget: int, fold: string -> string)
    returns (r: Option<seq<Message>>)
    ensures r.None? <==> NeverFits(messages, LatestError(messages, fold), cost, budget)
    ensures r.Some? ==> Fitted(messages, LatestError(messages, fold), cost, budget, r.value)
  {
    r := FitPinned(messages, LatestError(messages, fold), cost, budget);
    if r.Some? { FittedMeansFits(messages, LatestError(messages, fold), cost, budget, r.value); }
  }

  lemma StuckNeverFits(messages: seq<Message>, latest: Option<Message>, cost: seq<Message> -> int, budget: int, k: nat)
    requires Tried(messages, latest, cost, budget, k) && cost(Reduced(messages, latest, k)) > budget
    requires Stuck(Reduced(messages, latest, k), latest)
    ensures NeverFits(messages, latest, cost, budget)
  {
    NothingRemovable(messages, latest, k);
  }

  lemma AnotherTry(messages: seq<Message>, latest: Option<Message>, cost: seq<Message> -> int, budget: int, k: nat,
                   i: nat)
    requires Tried(messages, latest, cost, budget, k) && cost(Reduced(messages, latest, k)) > budget
    requires Removable(Reduced(messages, latest, k), latest, i)
    ensures Tried(messages, latest, cost, budget, k + 1)
    ensures Reduced(messages, latest, k + 1) == Pop(Reduced(messages, latest, k), i)
  {
    PopReduces(messages, latest, k, i);
  }

  lemma NoDropYet(messages: seq<Message>, latest: Option<Message>)
    ensures Reduced(messages, latest, 0) == messages
  {
  }

  /** The drop loop, once the latest error is known. */
  method FitPinned(messages: seq<Message>, latest: Option<Message>, cost: seq<Message> -> int, budget: int)
    returns (r: Option<seq<Message>>)
    ensures match r case None => NeverFits(messages, latest, cost, budget) case Some(fitted) => Fitted(messages, latest,
        cost, budget, fitted)
  {
    var left := messages;
    ghost var k: nat := 0;
    NoDropYet(messages, latest);
    while cost(left) > budget
      invariant Tried(messages, latest, cost, budget, k) && left == Reduced(messages, latest, k)
      decreases |left|
    {
      var removable := FirstRemovable(left, latest);
      if removable.None? {
        StuckNeverFits(messages, latest, cost, budget, k);
        return None;
      }
      AnotherTry(messages, latest, cost, budget, k, removable.value);
      left := Pop(left, removable.value);
      k := k + 1;
    }
    assert FirstFit(messages, latest, cost, budget, k);
    return Some(left);
  }

  // ---------------------------------------------------------------- when it fails

  /** The first message, every message pinned in between, and the last one. */
  function PinnedAlone(messages: seq<Message>, latest: Option<Message>): seq<Message> {
    if |messages| < 3 then messages
    else Framed(messages[0], Kind(Middle(messages), latest, true), messages[|messages| - 1])
  }

  ghost predicate Monotone(cost: seq<Message> -> int) { forall short, long :: Subsequence(short, long)
                                                           ==> cost(short) <= cost(long) }

  /** A failure means that the pinned messages alone exceed the budget; for a cost that grows with the messages, only
      that. */
  lemma FailsOnlyOnPinned(messages: seq<Message>, latest: Option<Message>, cost: seq<Message> -> int, budget: int)
    ensures NeverFits(messages, latest, cost, budget) ==> cost(PinnedAlone(messages, latest)) > budget
    ensures Monotone(cost) && cost(PinnedAlone(messages, latest)) > budget ==> NeverFits(messages, latest, cost, budget)
  {
    PinnedAloneIsLastReduction(messages, latest);
    forall k: nat | k <= Droppable(messages, latest) ensures Subsequence(PinnedAlone(messages, latest),
        Reduced(messages, latest, k)) {
      PinnedInEveryReduction(messages, latest, k);
    }
  }

  lemma PinnedAloneIsLastReduction(messages: seq<Message>, latest: Option<Message>)
    ensures Reduced(messages, latest, Droppable(messages, latest)) == PinnedAlone(messages, latest)
  {
    if |messages| >= 3 { NothingLeftButPinned(Middle(messages), latest); }
  }

  lemma PinnedInEveryReduction(messages: seq<Message>, latest: Option<Message>, k: nat)
    requires k <= Droppable(messages, latest)
    ensures Subsequence(PinnedAlone(messages, latest), Reduced(messages, latest, k))
  {
    if |messages| < 3 {
      SubsequenceSelf(messages);
    } else {
      var kept := Without(Middle(messages), latest, k);
      WithoutDropsOldest(Middle(messages), latest, k);
      KindIsSubsequence(kept, latest);
      FramedSubsequence(messages[0], Kind(kept, latest, true), kept, messages[|messages| - 1]);
    }
  }

  lemma {:induction false} KindIsSubsequence(list: seq<Message>, latest: Option<Message>)
    ensures Subsequence(Kind(list, latest, true), list)
    decreases |list|
  {
    if list != [] {
      KindIsSubsequence(list[1..], latest);
      var short, rest := Kind(list, latest, true), Kind(list[1..], latest, true);
      assert Pinned(list[0], latest) ==> short[0] == list[0] && short[1..] == rest;
      assert !Pinned(list[0], latest) ==> short == rest;
    }
  }

  // ---------------------------------------------------------------- what is pinned, and nothing else

  /** An error is a tool's message whose folded text contains one of the five markers. */
  lemma ErrorExactlyWhen(m: Message, fold: string -> string)
    ensures IsError(m, fold)
            <==> (m.role == "tool" || m.role == "tool_response")
                 && exists before, marker, after ::
                      marker in {"error", "failed", "denied", "conflict", "timed out"}
                      && fold(m.content) == before + marker + after
  {
    var text := fold(m.content);
    if IsError(m, fold) {
      var i :| 0 <= i < |ERROR_MARKERS| && Contains(text, ERROR_MARKERS[i]);
      var k :| 0 <= k <= |text| && ERROR_MARKERS[i] <= text[k..];
      assert text == text[..k] + ERROR_MARKERS[i] + text[k + |ERROR_MARKERS[i]|..];
    }
    if before, marker, after :| marker in {"error", "failed", "denied", "conflict", "timed out"}
                                && text == before + marker + after {
      assert marker <= text[|before|..];
      assert ERROR_MARKERS[0] == "error" && ERROR_MARKERS[1] == "failed" && ERROR_MARKERS[2] == "denied";
      assert ERROR_MARKERS[3] == "conflict" && ERROR_MARKERS[4] == "timed out";
      assert exists i :: 0 <= i < |ERROR_MARKERS| && ERROR_MARKERS[i] == marker;
    }
  }

  predicate DistinctMessages(messages: seq<Message>) {
    forall i, j :: 0 <= i < j < |messages| ==> messages[i].id != messages[j].id
  }

  /** The message at position `at` alone, if there is one. */
  function OnlyAt(list: seq<Message>, at: Option<nat>): seq<Message> {
    if at.Some? && at.value < |list| then [list[at.value]] else []
  }

  lemma {:induction false} SinglePinned(list: seq<Message>, latest: Option<Message>, at: Option<nat>)
    requires forall k :: 0 <= k < |list| ==> (Pinned(list[k], latest) <==> at == Some(k))
    ensures Kind(list, latest, true) == OnlyAt(list, at)
    decreases |list|
  {
    if list != [] {
      var rest := if at.Some? && at.value > 0 then Some((at.value - 1) as nat) else None;
      forall k | 0 <= k < |list[1..]| ensures Pinned(list[1..][k], latest) <==> rest == Some(k) {
        assert list[1..][k] == list[k + 1];
      }
      SinglePinned(list[1..], latest, rest);
    }
  }

  lemma {:induction false} NothingLeft(list: seq<Message>, latest: Option<Message>)
    requires Kind(list, latest, false) == []
    ensures list == Kind(list, latest, true)
    decreases |list|
  {
    if list != [] { NothingLeft(list[1..], latest); }
  }

  /** When all that may go has gone, there remain the first message, the latest error if it lies between the first and
      the last one, and the last message: nothing else is pinned. */
  lemma OnlyLatestErrorStays(messages: seq<Message>, fold: string -> string)
    requires |messages| >= 3 && DistinctMessages(messages)
    ensures var latest := LatestError(messages, fold);
            var (first, last) := (messages[0], messages[|messages| - 1]);
            Reduced(messages, latest, Droppable(messages, latest))
            == [first] + (if latest.Some? && latest.value != last then [latest.value] else []) + [last]
  {
    var (latest, middle) := (LatestError(messages, fold), Middle(messages));
    var at := LatestPlace(messages, fold);
    SinglePinned(middle, latest, at);
    WithoutDropsOldest(middle, latest, |Kind(middle, latest, false)|);
    NothingLeft(Without(middle, latest, |Kind(middle, latest, false)|), latest);
  }

  /** Where between the first and the last message the latest error is, if it is there. */
  lemma LatestPlace(messages: seq<Message>, fold: string -> string) returns (at: Option<nat>)
    requires |messages| >= 3 && DistinctMessages(messages)
    ensures var (latest, middle) := (LatestError(messages, fold), Middle(messages));
            (forall k :: 0 <= k < |middle| ==> (Pinned(middle[k], latest) <==> at == Some(k)))
            && OnlyAt(middle, at)
               == if latest.Some? && latest.value != messages[|messages| - 1] then [latest.value] else []
  {
    var latest := LatestError(messages, fold);
    at := None;
    if latest.Some? {
      var i: nat :| 1 <= i < |messages| && messages[i] == latest.value;
      at := Some(i - 1);
      forall k | 0 <= k < |Middle(messages)| ensures Pinned(Middle(messages)[k], latest) <==> k == i - 1 {
        SamePlace(messages, k + 1, i);
        assert Middle(messages)[k] == messages[k + 1];
      }
      SamePlace(messages, |messages| - 1, i);
    }
  }

  lemma SamePlace(messages: seq<Message>, i: nat, j: nat)
    requires DistinctMessages(messages) && i < |messages| && j < |messages|
    ensures messages[i].id == messages[j].id <==> i == j
  {
  }
}
