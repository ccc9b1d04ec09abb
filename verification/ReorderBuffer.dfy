/** The finite gather reorder buffer: packets arrive in any order, leave in the expected one, and never lock up. */
module ReorderBuffer {
  import opened Basics
  import opened CollTypes

  datatype PacketKey = PacketKey(collective: CollectiveKey, phase: int, chunk: int, src: int, dst: int)

  datatype Slot = Slot(key: PacketKey, offset: int, received: bool, committed: bool)

  datatype Buffer = Buffer(slots: seq<Slot>, depth: nat, ports: nat, occupancy: int, next: int)

  datatype Status = Accepted | Full | Duplicate | UnknownPacket | InvalidOffset

  datatype Arrival = Arrival(key: PacketKey, offset: int)

  /** The slot that expects this packet, or the slot count if none does. */
  function Find(slots: seq<Slot>, key: PacketKey): (i: nat)
    ensures i <= |slots|
    ensures i < |slots| ==> slots[i].key == key
    ensures forall j :: 0 <= j < i ==> slots[j].key != key
  {
    if slots == [] then 0 else if slots[0].key == key then 0 else Find(slots[1..], key) + 1
  }

  function Received(slots: seq<Slot>): nat {
    if slots == [] then 0 else Received(slots[..|slots| - 1]) + if slots[|slots| - 1].received then 1 else 0
  }

  ghost predicate DistinctKeys(slots: seq<Slot>) {
    forall i, j :: 0 <= i < j < |slots| ==> slots[i].key != slots[j].key
  }

  /**
   * The committed slots are exactly a prefix, occupancy counts the received ones and fits the depth, and
   * while the head of the stream is missing an entry is kept for it.
   */
  ghost predicate Valid(b: Buffer) {
    && b.depth > 0 && b.ports > 0 && b.slots != [] && 0 <= b.next <= |b.slots|
    && DistinctKeys(b.slots)
    && (forall i :: 0 <= i < |b.slots| ==>
        (b.slots[i].committed <==> i < b.next) && (b.slots[i].received ==> i >= b.next))
    && b.occupancy == Received(b.slots) <= b.depth
    && (b.next < |b.slots| && !b.slots[b.next].received ==> b.occupancy < b.depth)
  }

  predicate Complete(b: Buffer) {
    b.next == |b.slots|
  }

  function AcceptStatus(b: Buffer, a: Arrival): Status {
    var i := Find(b.slots, a.key);
    if i == |b.slots| then UnknownPacket
    else if b.slots[i].received || b.slots[i].committed then Duplicate
    else if b.slots[i].offset != a.offset then InvalidOffset
    else if b.occupancy == b.depth
            || (i != b.next && b.occupancy + 1 == b.depth && 0 <= b.next < |b.slots| && !b.slots[b.next].received) then
      Full
    else Accepted
  }

  function Accept(b: Buffer, a: Arrival): Buffer {
    if AcceptStatus(b, a) == Accepted then
      var i := Find(b.slots, a.key);
      b.(slots := b.slots[i := b.slots[i].(received := true)], occupancy := b.occupancy + 1)
    else b
  }

  predicate HeadReady(b: Buffer) {
    0 <= b.next < |b.slots| && b.slots[b.next].received
  }

  function CommitOne(b: Buffer): Buffer
    requires HeadReady(b)
  {
    b.(slots := b.slots[b.next := b.slots[b.next].(received := false, committed := true)],
       occupancy := b.occupancy - 1, next := b.next + 1)
  }

  /** Up to `k` packets leave in order, as long as the head is there. */
  function Commit(b: Buffer, k: nat): Buffer
    decreases k
  {
    if k == 0 || !HeadReady(b) then b else Commit(CommitOne(b), k - 1)
  }

  lemma {:induction false} ReceivedUpdate(slots: seq<Slot>, i: nat, s: Slot)
    requires i < |slots|
    ensures Received(slots[i := s])
              == Received(slots) + (if s.received then 1 else 0) - (if slots[i].received then 1 else 0)
  {
    var n := |slots| - 1;
    if i < n {
      assert slots[i := s][..n] == slots[..n][i := s];
      ReceivedUpdate(slots[..n], i, s);
    } else {
      assert slots[i := s][..n] == slots[..n];
    }
  }

  lemma AcceptKeepsValid(b: Buffer, a: Arrival)
    requires Valid(b)
    ensures Valid(Accept(b, a))
  {
    if AcceptStatus(b, a) == Accepted {
      var i := Find(b.slots, a.key);
      ReceivedUpdate(b.slots, i, b.slots[i].(received := true));
    }
  }

  lemma CommitOneKeepsValid(b: Buffer)
    requires Valid(b) && HeadReady(b)
    ensures Valid(CommitOne(b))
  {
    ReceivedUpdate(b.slots, b.next, b.slots[b.next].(received := false, committed := true));
  }

  lemma {:induction false} CommitKeepsValid(b: Buffer, k: nat)
    requires Valid(b)
    ensures Valid(Commit(b, k)) && b.next <= Commit(b, k).next <= b.next + k
    ensures Commit(b, k).depth == b.depth && Commit(b, k).ports == b.ports && |Commit(b, k).slots| == |b.slots|
    decreases k
  {
    if k > 0 && HeadReady(b) {
      CommitOneKeepsValid(b);
      CommitKeepsValid(CommitOne(b), k - 1);
    }
  }

  datatype Made = Buffered(b: Buffer) | NoSlots | ZeroDepth | ZeroPorts | RepeatedPacket

  function Fresh(expected: seq<Arrival>): (s: seq<Slot>)
    ensures |s| == |expected|
  {
    seq(|expected|, i requires 0 <= i < |expected| => Slot(expected[i].key, expected[i].offset, false, false))
  }

  ghost predicate DistinctArrivals(expected: seq<Arrival>) {
    forall i, j :: 0 <= i < j < |expected| ==> expected[i].key != expected[j].key
  }

  lemma {:induction false} FreshEmpty(expected: seq<Arrival>)
    ensures Received(Fresh(expected)) == 0
  {
    if expected != [] {
      FreshEmpty(expected[..|expected| - 1]);
      assert Fresh(expected)[..|expected| - 1] == Fresh(expected[..|expected| - 1]);
    }
  }

  class GatherReorderBuffer {
    var slots: seq<Slot>
    var depth: nat
    var ports: nat
    var occupancy: int
    var next: int

    ghost function Abs(): Buffer
      reads this
    {
      Buffer(slots, depth, ports, occupancy, next)
    }

    constructor ()
      ensures slots == []
    {
      slots, depth, ports, occupancy, next := [], 0, 0, 0, 0;
    }

    /** The source's constructor, with its exceptions as results. */
    method Setup(expected: seq<Arrival>, d: nat, p: nat) returns (made: Made)
      modifies this
      ensures made == NoSlots <==> expected == []
      ensures made == ZeroDepth <==> expected != [] && d == 0
      ensures made == ZeroPorts <==> expected != [] && d > 0 && p == 0
      ensures made == RepeatedPacket <==> expected != [] && d > 0 && p > 0 && !DistinctArrivals(expected)
      ensures made.Buffered? ==> Abs() == made.b == Buffer(Fresh(expected), d, p, 0, 0) && Valid(Abs())
    {
      depth, ports, occupancy, next, slots := d, p, 0, 0, [];
      if expected == [] {
        return NoSlots;
      }
      if d == 0 {
        return ZeroDepth;
      }
      if p == 0 {
        return ZeroPorts;
      }
      for n := 0 to |expected|
        invariant slots == Fresh(expected[..n]) && DistinctArrivals(expected[..n])
        invariant depth == d && ports == p && occupancy == 0 && next == 0
      {
        for j := 0 to n
          invariant forall i :: 0 <= i < j ==> expected[i].key != expected[n].key
        {
          assert slots[j].key == expected[j].key;
          if slots[j].key == expected[n].key {
            return RepeatedPacket;
          }
        }
        slots := slots + [Slot(expected[n].key, expected[n].offset, false, false)];
        assert expected[..n + 1] == expected[..n] + [expected[n]];
      }
      assert expected[..|expected|] == expected;
      FreshEmpty(expected);
      made := Buffered(Buffer(slots, depth, ports, occupancy, next));
    }

    method FindSlot(key: PacketKey) returns (i: nat)
      ensures i == Find(slots, key)
    {
      i := 0;
      while i < |slots|
        invariant i <= |slots| && forall j :: 0 <= j < i ==> slots[j].key != key
      {
        if slots[i].key == key {
          return;
        }
        i := i + 1;
      }
    }

    method AcceptPacket(a: Arrival) returns (status: Status, occupied: int)
      requires Valid(Abs())
      modifies this
      ensures Valid(Abs())
      ensures status == AcceptStatus(old(Abs()), a) && Abs() == Accept(old(Abs()), a) && occupied == occupancy
    {
      AcceptKeepsValid(Abs(), a);
      var index := FindSlot(a.key);
      if index == |slots| {
        return UnknownPacket, occupancy;
      }
      if slots[index].received || slots[index].committed {
        return Duplicate, occupancy;
      }
      if slots[index].offset != a.offset {
        return InvalidOffset, occupancy;
      }
      if occupancy == depth || (index != next && occupancy + 1 == depth && !slots[next].received) {
        return Full, occupancy;
      }
      slots := slots[index := slots[index].(received := true)];
      occupancy := occupancy + 1;
      return Accepted, occupancy;
    }

    method CommitCycle() returns (committed: nat)
      requires Valid(Abs())
      modifies this
      ensures Valid(Abs())
      ensures Abs() == Commit(old(Abs()), old(ports)) && committed == next - old(next)
    {
      committed := 0;
      while committed < ports && next < |slots|
        invariant Valid(Abs()) && committed <= ports && ports == old(ports) && committed == next - old(next)
        invariant Commit(Abs(), ports - committed) == Commit(old(Abs()), old(ports))
        decreases ports - committed
      {
        if !slots[next].received {
          return;
        }
        CommitHead();
        committed := committed + 1;
      }
    }

    method CommitHead()
      requires Valid(Abs()) && HeadReady(Abs())
      modifies this`slots, this`occupancy, this`next
      ensures Valid(Abs()) && Abs() == CommitOne(old(Abs()))
    {
      CommitOneKeepsValid(Abs());
      slots := slots[next := slots[next].(received := false, committed := true)];
      occupancy := occupancy - 1;
      next := next + 1;
    }
  }

  // ---- Main results ---------------------------------------------------------------------------

  function HeadOf(b: Buffer): Arrival
    requires 0 <= b.next < |b.slots|
  {
    Arrival(b.slots[b.next].key, b.slots[b.next].offset)
  }

  lemma FindsOwn(slots: seq<Slot>, i: nat)
    requires DistinctKeys(slots) && i < |slots|
    ensures Find(slots, slots[i].key) == i
  {
  }

  /** A packet nobody expects is unknown, and changes nothing. */
  lemma UnknownIff(b: Buffer, a: Arrival)
    ensures AcceptStatus(b, a) == UnknownPacket <==> forall i :: 0 <= i < |b.slots| ==> b.slots[i].key != a.key
    ensures AcceptStatus(b, a) == UnknownPacket ==> Accept(b, a) == b
  {
  }

  /**
   * The answer to an expected packet, by the slot that expects it: one that is in already is a duplicate; a missing one
   * must have its slot's offset; it is then taken and recorded if two entries are free, or one is and the head of the
   * stream is in or is this packet, and refused for want of room otherwise.
   */
  lemma AnswerIs(b: Buffer, a: Arrival, i: nat)
    requires Valid(b) && i < |b.slots| && b.slots[i].key == a.key
    ensures var missing := !b.slots[i].received && !b.slots[i].committed;
            var free := b.depth - b.occupancy;
            var room := free >= 2 || (free == 1 && b.next < |b.slots| && (b.slots[b.next].received || i == b.next));
            && (AcceptStatus(b, a) == Duplicate <==> !missing)
            && (AcceptStatus(b, a) == InvalidOffset <==> missing && a.offset != b.slots[i].offset)
            && (AcceptStatus(b, a) == Accepted <==> missing && a.offset == b.slots[i].offset && room)
            && (AcceptStatus(b, a) == Full <==> missing && a.offset == b.slots[i].offset && !room)
    ensures AcceptStatus(b, a) == Accepted ==>
              var b' := Accept(b, a);
              && b'.occupancy == b.occupancy + 1 && b'.next == b.next && b'.depth == b.depth && b'.ports == b.ports
              && b'.slots == b.slots[i := Slot(a.key, a.offset, true, false)]
    ensures AcceptStatus(b, a) != Accepted ==> Accept(b, a) == b
  {
    FindsOwn(b.slots, i);
  }

  /** A commit cycle takes the received packets at the head, as many as it may, and stops at the first gap. */
  lemma {:induction false} CommitIs(b: Buffer, k: nat)
    requires Valid(b)
    ensures var b' := Commit(b, k);
            var j := b'.next - b.next;
            && 0 <= j <= k && b'.next <= |b.slots| == |b'.slots| && b'.occupancy == b.occupancy - j
            && (forall i :: b.next <= i < b'.next ==> b.slots[i].received)
            && (j == k || b'.next == |b.slots| || !b.slots[b'.next].received)
            && (forall i :: 0 <= i < |b.slots| ==>
                  b'.slots[i] == if b.next <= i < b'.next then b.slots[i].(received := false, committed := true)
                                 else b.slots[i])
    decreases k
  {
    if k > 0 && HeadReady(b) {
      CommitOneKeepsValid(b);
      CommitIs(CommitOne(b), k - 1);
      var b1, b' := CommitOne(b), Commit(b, k);
      forall i | b.next <= i < b'.next
        ensures b.slots[i].received
      {
        if i > b.next {
          assert b1.slots[i].received;
        }
      }
    }
  }

  /** The one packet that can move the stream on is never turned away for want of room. */
  lemma HeadNeverFull(b: Buffer)
    requires Valid(b) && !Complete(b)
    ensures AcceptStatus(b, HeadOf(b)) == if b.slots[b.next].received then Duplicate else Accepted
  {
    FindsOwn(b.slots, b.next);
  }

  function Feed(b: Buffer, arrivals: seq<Arrival>): Buffer {
    if arrivals == [] then b else Accept(Feed(b, arrivals[..|arrivals| - 1]), arrivals[|arrivals| - 1])
  }

  /** Arrivals leave the order of the stream alone; a slot once received stays so. */
  lemma {:induction false} FeedKeeps(b: Buffer, arrivals: seq<Arrival>)
    requires Valid(b)
    ensures var b' := Feed(b, arrivals);
            && Valid(b') && b'.next == b.next && |b'.slots| == |b.slots| && b'.ports == b.ports
            && (forall i :: 0 <= i < |b.slots| ==>
                  b'.slots[i].key == b.slots[i].key && b'.slots[i].offset == b.slots[i].offset
                  && (b.slots[i].received ==> b'.slots[i].received))
  {
    if arrivals != [] {
      FeedKeeps(b, arrivals[..|arrivals| - 1]);
      AcceptKeepsValid(Feed(b, arrivals[..|arrivals| - 1]), arrivals[|arrivals| - 1]);
    }
  }

  /** If the head is among the arrivals, in whatever company and order, it is in afterwards. */
  lemma {:induction false} HeadGetsIn(b: Buffer, arrivals: seq<Arrival>)
    requires Valid(b) && !Complete(b) && (b.slots[b.next].received || HeadOf(b) in arrivals)
    ensures HeadReady(Feed(b, arrivals))
  {
    if arrivals != [] {
      var before, last := arrivals[..|arrivals| - 1], arrivals[|arrivals| - 1];
      assert arrivals == before + [last];
      FeedKeeps(b, before);
      FeedKeeps(b, arrivals);
      if b.slots[b.next].received || HeadOf(b) in before {
        HeadGetsIn(b, before);
      } else {
        HeadNeverFull(Feed(b, before));
      }
    }
  }

  /** Senders retry: in each round every packet still missing is offered once more, then the stream commits. */
  ghost predicate OffersMissing(b: Buffer, arrivals: seq<Arrival>) {
    forall i :: 0 <= i < |b.slots| && !b.slots[i].received && !b.slots[i].committed ==>
      Arrival(b.slots[i].key, b.slots[i].offset) in arrivals
  }

  function Round(b: Buffer, arrivals: seq<Arrival>): Buffer {
    Commit(Feed(b, arrivals), b.ports)
  }

  lemma RoundAdvances(b: Buffer, arrivals: seq<Arrival>)
    requires Valid(b) && !Complete(b) && OffersMissing(b, arrivals)
    ensures Valid(Round(b, arrivals)) && Round(b, arrivals).next > b.next && |Round(b, arrivals).slots| == |b.slots|
  {
    HeadGetsIn(b, arrivals);
    FeedKeeps(b, arrivals);
    CommitAdvances(Feed(b, arrivals), b.ports);
  }

  lemma CommitAdvances(b: Buffer, k: nat)
    requires Valid(b) && HeadReady(b) && k > 0
    ensures Valid(Commit(b, k)) && Commit(b, k).next > b.next && |Commit(b, k).slots| == |b.slots|
  {
    CommitOneKeepsValid(b);
    CommitKeepsValid(CommitOne(b), k - 1);
    CommitKeepsValid(b, k);
  }

  function Rounds(b: Buffer, rounds: seq<seq<Arrival>>): Buffer {
    if rounds == [] then b else Round(Rounds(b, rounds[..|rounds| - 1]), rounds[|rounds| - 1])
  }

  ghost predicate AllRetry(b: Buffer, rounds: seq<seq<Arrival>>) {
    forall k :: 0 <= k < |rounds| ==> OffersMissing(Rounds(b, rounds[..k]), rounds[k])
  }

  /** For any arrival order with retries, at any depth, as many rounds as there are packets complete the stream. */
  lemma {:induction false} RetriesComplete(b: Buffer, rounds: seq<seq<Arrival>>)
    requires Valid(b) && AllRetry(b, rounds)
    ensures var b' := Rounds(b, rounds);
            Valid(b') && |b'.slots| == |b.slots| && (Complete(b') || b'.next >= b.next + |rounds|)
  {
    if rounds != [] {
      var before, last := rounds[..|rounds| - 1], rounds[|rounds| - 1];
      forall k | 0 <= k < |before|
        ensures OffersMissing(Rounds(b, before[..k]), before[k])
      {
        assert before[..k] == rounds[..k];
      }
      RetriesComplete(b, before);
      var b1 := Rounds(b, before);
      assert OffersMissing(Rounds(b, rounds[..|rounds| - 1]), rounds[|rounds| - 1]);
      if !Complete(b1) {
        RoundAdvances(b1, last);
      } else {
        FeedKeeps(b1, last);
        CommitKeepsValid(Feed(b1, last), b1.ports);
      }
    }
  }

  /** Once every packet is in, each further cycle commits a full port's worth until the stream is complete. */
  lemma {:induction false} DrainsAtPortRate(b: Buffer, k: nat)
    requires Valid(b) && forall i :: b.next <= i < |b.slots| ==> b.slots[i].received
    ensures Commit(b, k).next == Min(b.next + k, |b.slots|)
    decreases k
  {
    assert b.next < |b.slots| ==> b.slots[b.next].received;
    if k > 0 && HeadReady(b) {
      CommitOneKeepsValid(b);
      DrainsAtPortRate(CommitOne(b), k - 1);
    }
  }
}
