/** The shared conversation memory: bounded by message count and by total content size. */
module MessageStores {
  import opened Collections

  datatype Message = Message(role: string, content: string, agent: string)

  /** Zero or absent `capacity` means unbounded; a negative one is accepted too. */
  datatype Bounds = Bounds(capacity: Option<int>, maxChars: Option<int>)

  function Total(messages: seq<Message>): nat {
    if messages == [] then 0 else |messages[0].content| + Total(messages[1..])
  }

  lemma {:induction false} TotalConcat(a: seq<Message>, b: seq<Message>)
    ensures Total(a + b) == Total(a) + Total(b)
  {
    if a == [] {
      assert a + b == b;
    } else {
      assert (a + b)[1..] == a[1..] + b;
      TotalConcat(a[1..], b);
    }
  }

  /** `messages[-n:]`: the last n for positive n, everything for zero, all but the first -n for negative n. */
  function SliceFrom(messages: seq<Message>, n: int): seq<Message> {
    if n > 0 then (if n >= |messages| then messages else messages[|messages| - n..])
    else if -n >= |messages| then []
    else messages[-n..]
  }

  // ----- what the bounds ask for

  predicate FitsCount(bounds: Bounds, messages: seq<Message>) {
    bounds.capacity.Some? && bounds.capacity.value != 0 ==> |messages| <= bounds.capacity.value
  }

  predicate FitsSize(bounds: Bounds, messages: seq<Message>) {
    bounds.maxChars.Some? ==> Total(messages) <= bounds.maxChars.value
  }

  predicate Fits(bounds: Bounds, messages: seq<Message>) {
    FitsCount(bounds, messages) && FitsSize(bounds, messages)
  }

  predicate IsSuffix(s: seq<Message>, h: seq<Message>) {
    |s| <= |h| && s == h[|h| - |s|..]
  }

  /** The longest suffix of a history that fits both bounds, or its newest message alone if no non-empty suffix fits. */
  ghost predicate IsBestSuffix(bounds: Bounds, h: seq<Message>, r: seq<Message>) {
    && IsSuffix(r, h)
    && (h != [] ==> r != [])
    && (Fits(bounds, r) || |r| <= 1)
    && (forall s :: IsSuffix(s, h) && |s| > |r| ==> !Fits(bounds, s))
  }

  lemma BestSuffixUnique(bounds: Bounds, h: seq<Message>, a: seq<Message>, b: seq<Message>)
    requires IsBestSuffix(bounds, h, a) && IsBestSuffix(bounds, h, b)
    ensures a == b
  {
  }

  /** Dropping messages from the front never makes a fitting list stop fitting. */
  lemma ShorterFits(bounds: Bounds, s: seq<Message>, n: nat)
    requires n <= |s| && Fits(bounds, s)
    ensures Fits(bounds, s[n..]) && Fits(bounds, s[..|s| - n])
  {
    assert s == s[..n] + s[n..] && s == s[..|s| - n] + s[|s| - n..];
    TotalConcat(s[..n], s[n..]);
    TotalConcat(s[..|s| - n], s[|s| - n..]);
  }

  /** The best suffix of a longer history is the best suffix of the old best suffix with the new message. */
  lemma BestSuffixGrows(bounds: Bounds, h: seq<Message>, kept: seq<Message>, m: Message, r: seq<Message>)
    requires IsBestSuffix(bounds, h, kept) && IsBestSuffix(bounds, kept + [m], r)
    ensures IsBestSuffix(bounds, h + [m], r)
  {
    hide IsSuffix, Fits;
    var all, part := h + [m], kept + [m];
    SuffixAppend(kept, h, m);
    SuffixOfSuffix(r, part, all);
    forall s | IsSuffix(s, all) && |s| > |r|
      ensures !Fits(bounds, s)
    {
      if |s| <= |part| {
        ShorterSuffix(s, part, all);
      } else {
        SuffixFront(s, h, m);
        if Fits(bounds, s) {
          ShorterFits(bounds, s, 1);
        }
      }
    }
  }

  lemma SuffixOfSuffix(a: seq<Message>, b: seq<Message>, c: seq<Message>)
    requires IsSuffix(a, b) && IsSuffix(b, c)
    ensures IsSuffix(a, c)
  {
  }

  lemma SuffixAppend(a: seq<Message>, b: seq<Message>, m: Message)
    requires IsSuffix(a, b)
    ensures IsSuffix(a + [m], b + [m])
  {
  }

  lemma ShorterSuffix(a: seq<Message>, b: seq<Message>, c: seq<Message>)
    requires IsSuffix(a, c) && IsSuffix(b, c) && |a| <= |b|
    ensures IsSuffix(a, b)
  {
  }

  lemma SuffixFront(s: seq<Message>, h: seq<Message>, m: Message)
    requires IsSuffix(s, h + [m]) && s != []
    ensures IsSuffix(s[..|s| - 1], h)
  {
  }

  // ----- what the store does

  /** Drops the oldest message while more than one is left and the rest is too large. */
  function DropOldest(bounds: Bounds, messages: seq<Message>): seq<Message> {
    if |messages| > 1 && bounds.maxChars.Some? && Total(messages) > bounds.maxChars.value
    then DropOldest(bounds, messages[1..])
    else messages
  }

  function CutToCapacity(bounds: Bounds, messages: seq<Message>): seq<Message> {
    if bounds.capacity.Some? && bounds.capacity.value != 0 && |messages| > bounds.capacity.value
    then SliceFrom(messages, bounds.capacity.value)
    else messages
  }

  function Enforced(bounds: Bounds, messages: seq<Message>): seq<Message> {
    DropOldest(bounds, CutToCapacity(bounds, messages))
  }

  /** The buffer after adding the messages one by one. */
  function AddAll(bounds: Bounds, h: seq<Message>): seq<Message> {
    if h == [] then [] else Enforced(bounds, AddAll(bounds, h[..|h| - 1]) + [h[|h| - 1]])
  }

  class MessageStore {
    const bounds: Bounds
    var messages: seq<Message>
    ghost var added: seq<Message>      // everything added since the last clear

    ghost predicate Valid()
      reads this
    {
      messages == AddAll(bounds, added)
    }

    constructor (bounds: Bounds)
      ensures Valid() && this.bounds == bounds && added == []
    {
      this.bounds := bounds;
      messages, added := [], [];
    }

    method Add(m: Message)
      requires Valid()
      modifies this
      ensures Valid() && added == old(added) + [m]
    {
      messages := messages + [m];
      added := added + [m];
      Enforce();
      assert added[..|added| - 1] == old(added);
    }

    /** Cuts to the capacity, then drops the oldest message while the running total is too large. */
    method Enforce()
      modifies this`messages
      ensures messages == Enforced(bounds, old(messages))
    {
      if bounds.capacity.Some? && bounds.capacity.value != 0 && |messages| > bounds.capacity.value {
        messages := SliceFrom(messages, bounds.capacity.value);
      }
      if bounds.maxChars.Some? {
        var total := Total(messages);
        while |messages| > 1 && total > bounds.maxChars.value
          invariant total == Total(messages)
          invariant DropOldest(bounds, messages) == Enforced(bounds, old(messages))
          decreases |messages|
        {
          total := total - |messages[0].content|;
          messages := messages[1..];
        }
      }
    }

    /** The last n messages; zero gives all of them, because the slice does. */
    method RecentMessages(n: int) returns (r: seq<Message>)
      ensures IsSuffix(r, messages)
      ensures n > 0 ==> |r| == if n < |messages| then n else |messages|
      ensures n == 0 ==> r == messages
      ensures n < 0 ==> |r| == if -n < |messages| then |messages| + n else 0
    {
      r := SliceFrom(messages, n);
    }

    method Clear()
      requires Valid()
      modifies this
      ensures Valid() && added == []
    {
      messages, added := [], [];
    }
  }

  // ----- the buffer as a function of its history

  predicate CapacityUsable(bounds: Bounds) {
    bounds.capacity.Some? ==> bounds.capacity.value >= 0
  }

  lemma {:induction false} DropOldestIsBest(bounds: Bounds, messages: seq<Message>)
    requires FitsCount(bounds, messages)
    ensures IsBestSuffix(bounds, messages, DropOldest(bounds, messages))
  {
    if |messages| > 1 && !FitsSize(bounds, messages) {
      ShorterCount(bounds, messages);
      DropOldestIsBest(bounds, messages[1..]);
      var r := DropOldest(bounds, messages[1..]);
      forall s | IsSuffix(s, messages) && |s| > |r|
        ensures !Fits(bounds, s)
      {
        if |s| == |messages| {
          assert s == messages;
        } else {
          assert IsSuffix(s, messages[1..]);
        }
      }
    } else {
      assert messages == messages[0..];
    }
  }

  lemma ShorterCount(bounds: Bounds, messages: seq<Message>)
    requires FitsCount(bounds, messages) && messages != []
    ensures FitsCount(bounds, messages[1..])
  {
  }

  /** One enforcement leaves the best suffix of what it is given. */
  lemma EnforcedIsBest(bounds: Bounds, messages: seq<Message>)
    requires CapacityUsable(bounds) && messages != []
    ensures IsBestSuffix(bounds, messages, Enforced(bounds, messages))
  {
    var cut := CutToCapacity(bounds, messages);
    assert IsSuffix(cut, messages) && cut != [];
    DropOldestIsBest(bounds, cut);
    var r := Enforced(bounds, messages);
    forall s | IsSuffix(s, messages) && |s| > |r|
      ensures !Fits(bounds, s)
    {
      if |s| <= |cut| {
        assert IsSuffix(s, cut);
      }
    }
  }

  /**
   * The buffer is a function of its whole history: after any adds it is the longest suffix of
   * everything added that fits both bounds, or the newest message alone if none fits.
   */
  lemma {:induction false} BufferIsBestSuffix(bounds: Bounds, h: seq<Message>)
    requires CapacityUsable(bounds)
    ensures IsBestSuffix(bounds, h, AddAll(bounds, h))
  {
    hide IsBestSuffix, Enforced;
    if h == [] {
      EmptyIsBest(bounds);
    } else {
      var front, m := h[..|h| - 1], h[|h| - 1];
      BufferIsBestSuffix(bounds, front);
      EnforcedIsBest(bounds, AddAll(bounds, front) + [m]);
      BestSuffixGrows(bounds, front, AddAll(bounds, front), m, AddAll(bounds, h));
      assert front + [m] == h;
    }
  }

  /** The buffer is that suffix and nothing else: what was dropped when leaves no other trace. */
  lemma BufferIffBestSuffix(bounds: Bounds, h: seq<Message>, r: seq<Message>)
    requires CapacityUsable(bounds)
    ensures AddAll(bounds, h) == r <==> IsBestSuffix(bounds, h, r)
  {
    hide IsBestSuffix, AddAll;
    BufferIsBestSuffix(bounds, h);
    if IsBestSuffix(bounds, h, r) {
      BestSuffixUnique(bounds, h, r, AddAll(bounds, h));
    }
  }

  lemma EmptyIsBest(bounds: Bounds)
    ensures IsBestSuffix(bounds, [], [])
  {
  }

  /** A negative capacity drops every message as it is added. */
  lemma {:induction false} NegativeCapacityKeepsNothing(bounds: Bounds, h: seq<Message>)
    requires !CapacityUsable(bounds)
    ensures AddAll(bounds, h) == []
  {
    if h != [] {
      NegativeCapacityKeepsNothing(bounds, h[..|h| - 1]);
    }
  }

  ghost predicate AlwaysKeepsNewest(bounds: Bounds) {
    forall h: seq<Message> :: h != [] ==>
      AddAll(bounds, h) != [] && AddAll(bounds, h)[|AddAll(bounds, h)| - 1] == h[|h| - 1]
  }

  /** The promise that the newest message is always kept holds exactly for capacities that are not negative. */
  lemma NewestKeptIff(bounds: Bounds)
    ensures AlwaysKeepsNewest(bounds) <==> CapacityUsable(bounds)
  {
    if CapacityUsable(bounds) {
      forall h: seq<Message> | h != []
        ensures AddAll(bounds, h) != [] && AddAll(bounds, h)[|AddAll(bounds, h)| - 1] == h[|h| - 1]
      {
        BufferIsBestSuffix(bounds, h);
      }
    } else {
      var m := Message("", "", "");
      NegativeCapacityKeepsNothing(bounds, [m]);
      assert AddAll(bounds, [m]) == [];
    }
  }
}
