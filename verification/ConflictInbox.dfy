/** One ring buffer of the conflict inbox: bounded, filtered, drained. The
    inbox holds three of them, for its three kinds of record. */
module ConflictInbox {
  import opened Wrappers

  /** key is the session id (or pointer key) a listing filters by. */
  datatype Record<T> = Record(key: string, body: T)

  /** A record with its place in the order of arrival. */
  datatype Arrival<T> = Arrival(index: nat, record: Record<T>)

  /** The buffer and, for the statement of conservation, where everything
      that ever arrived went. */
  datatype History<T> = History(
    count: nat,
    recorded: seq<Arrival<T>>,
    buffered: seq<Arrival<T>>,
    delivered: seq<Arrival<T>>,
    evicted: seq<Arrival<T>>,
    cleared: seq<Arrival<T>>)

  datatype Op<T> = Append(record: Record<T>) | Listing(filter: Option<string>, drain: bool) | Reset

  // ---------------------------------------------------------------------
  // Specification
  // ---------------------------------------------------------------------

  function Start<T>(): History<T> {
    History(0, [], [], [], [], [])
  }

  /** How many entries Python's s[-max:] drops from the front of s. For
      max = 0 that slice is the whole list. */
  function Dropped(length: nat, max: int): (n: nat)
    ensures n <= length
  {
    if max > 0 then (if length > max then length - max else 0)
    else if max == 0 then 0
    else if -max <= length then -max else length
  }

  predicate Wanted<T>(a: Arrival<T>, filter: Option<string>) {
    filter.None? || a.record.key == filter.value
  }

  function Matching<T>(s: seq<Arrival<T>>, filter: Option<string>): seq<Arrival<T>> {
    if s == [] then []
    else (if Wanted(s[0], filter) then [s[0]] else []) + Matching(s[1..], filter)
  }

  function Others<T>(s: seq<Arrival<T>>, filter: Option<string>): seq<Arrival<T>> {
    if s == [] then []
    else (if Wanted(s[0], filter) then [] else [s[0]]) + Others(s[1..], filter)
  }

  function Apply<T>(max: int, h: History<T>, op: Op<T>): History<T> {
    match op
    case Append(record) =>
      var a := Arrival(h.count, record);
      var grown := h.buffered + [a];
      var n := if |grown| > max then Dropped(|grown|, max) else 0;
      h.(count := h.count + 1, recorded := h.recorded + [a],
         buffered := grown[n..], evicted := h.evicted + grown[..n])
    case Listing(filter, drain) =>
      if drain then
        h.(buffered := Others(h.buffered, filter), delivered := h.delivered + Matching(h.buffered, filter))
      else h
    case Reset => h.(buffered := [], cleared := h.cleared + h.buffered)
  }

  function Run<T>(max: int, ops: seq<Op<T>>): History<T> {
    if ops == [] then Start()
    else Apply(max, Run(max, ops[..|ops| - 1]), ops[|ops| - 1])
  }

  // ---------------------------------------------------------------------
  // The buffer itself
  // ---------------------------------------------------------------------

  function Records<T>(s: seq<Arrival<T>>): seq<Record<T>> {
    seq(|s|, i requires 0 <= i < |s| => s[i].record)
  }

  class RingBuffer<T(==)> {
    const maxRecords: int
    var records: seq<Record<T>>
    ghost var history: History<T>

    ghost predicate Valid()
      reads this
    {
      records == Records(history.buffered)
    }

    constructor (maxRecords: int)
      ensures Valid() && this.maxRecords == maxRecords && history == Start()
    {
      this.maxRecords := maxRecords;
      records := [];
      history := Start();
    }

    method Record(record: Record<T>)
      requires Valid()
      modifies this
      ensures Valid() && history == Apply(maxRecords, old(history), Append(record))
    {
      ghost var grown := history.buffered + [Arrival(history.count, record)];
      records := records + [record];
      assert records == Records(grown);
      if |records| > maxRecords {
        var n := Dropped(|records|, maxRecords);
        records := records[n..];
        assert records == Records(grown[n..]);
      } else {
        assert grown[0..] == grown;
      }
      history := Apply(maxRecords, history, Append(record));
    }

    method List(filter: Option<string>, drain: bool) returns (matched: seq<Record<T>>)
      requires Valid()
      modifies this
      ensures Valid() && history == Apply(maxRecords, old(history), Listing(filter, drain))
      ensures matched == Records(Matching(old(history).buffered, filter))
    {
      ghost var was := history.buffered;
      var kept: seq<Record<T>> := [];
      matched := [];
      hide Matching, Others;
      NoneToList<T>(filter);
      for i := 0 to |records|
        invariant records == Records(was) && history == old(history)
        invariant matched == Records(Matching(was[..i], filter))
        invariant kept == Records(Others(was[..i], filter))
      {
        OneMoreListed(was[..i], was[i], filter);
        assert was[..i + 1] == was[..i] + [was[i]];
        if filter.None? || records[i].key == filter.value {
          matched := matched + [records[i]];
        } else {
          kept := kept + [records[i]];
        }
      }
      assert was[..|records|] == was;
      if drain {
        records := kept;
      }
      history := Apply(maxRecords, history, Listing(filter, drain));
    }

    method Reset()
      requires Valid()
      modifies this
      ensures Valid() && history == Apply(maxRecords, old(history), Op.Reset)
    {
      records := [];
      history := Apply(maxRecords, history, Op.Reset);
    }
  }

  lemma NoneToList<T>(filter: Option<string>)
    ensures Matching<T>([], filter) == [] && Others<T>([], filter) == []
  {
  }

  lemma {:induction false} OneMoreListed<T>(s: seq<Arrival<T>>, a: Arrival<T>, filter: Option<string>)
    ensures Matching(s + [a], filter) == Matching(s, filter) + (if Wanted(a, filter) then [a] else [])
    ensures Others(s + [a], filter) == Others(s, filter) + (if Wanted(a, filter) then [] else [a])
  {
    hide Wanted;
    if s == [] {
      assert (s + [a])[1..] == [];
    } else {
      assert (s + [a])[1..] == s[1..] + [a];
      OneMoreListed(s[1..], a, filter);
    }
  }

  // ---------------------------------------------------------------------
  // Conservation
  // ---------------------------------------------------------------------

  ghost predicate InOrder<T>(s: seq<Arrival<T>>) {
    forall i, j :: 0 <= i < j < |s| ==> s[i].index < s[j].index
  }

  ghost predicate Subset<T>(s: seq<Arrival<T>>, t: seq<Arrival<T>>) {
    forall a :: a in s ==> a in t
  }

  /** Every arrival is in exactly one place, exactly once. */
  ghost predicate Conserved<T>(h: History<T>) {
    multiset(h.recorded)
    == multiset(h.buffered) + multiset(h.delivered) + multiset(h.evicted) + multiset(h.cleared)
  }

  ghost predicate Numbered<T>(h: History<T>) {
    |h.recorded| == h.count && forall i :: 0 <= i < h.count ==> h.recorded[i].index == i
  }

  lemma {:induction false} SplitKeepsAll<T>(s: seq<Arrival<T>>, filter: Option<string>)
    ensures multiset(s) == multiset(Matching(s, filter)) + multiset(Others(s, filter))
    ensures Subset(Matching(s, filter), s) && Subset(Others(s, filter), s)
    ensures |Others(s, filter)| <= |s|
  {
    if s != [] {
      SplitKeepsAll(s[1..], filter);
      assert s == [s[0]] + s[1..];
    }
  }

  lemma {:induction false} OthersInOrder<T>(s: seq<Arrival<T>>, filter: Option<string>)
    requires InOrder(s)
    ensures InOrder(Others(s, filter))
  {
    if s != [] {
      OthersInOrder(s[1..], filter);
      SplitKeepsAll(s[1..], filter);
      forall a | a in s[1..] ensures s[0].index < a.index {
      }
    }
  }

  /** Told by the keys: a listing is of exactly the buffered records of that
      key, or all of them; draining it leaves exactly the others; both in order. */
  lemma {:induction false} ListingExactly<T>(s: seq<Arrival<T>>, filter: Option<string>, a: Arrival<T>)
    requires InOrder(s)
    ensures a in Matching(s, filter) <==> a in s && (filter.None? || a.record.key == filter.value)
    ensures a in Others(s, filter) <==> a in s && filter.Some? && a.record.key != filter.value
    ensures InOrder(Matching(s, filter)) && InOrder(Others(s, filter))
  {
    OthersInOrder(s, filter);
    MatchingInOrder(s, filter);
    ListingMembers(s, filter, a);
  }

  lemma {:induction false} ListingMembers<T>(s: seq<Arrival<T>>, filter: Option<string>, a: Arrival<T>)
    ensures a in Matching(s, filter) <==> a in s && (filter.None? || a.record.key == filter.value)
    ensures a in Others(s, filter) <==> a in s && filter.Some? && a.record.key != filter.value
  {
    if s != [] {
      ListingMembers(s[1..], filter, a);
      assert s == [s[0]] + s[1..];
    }
  }

  lemma {:induction false} MatchingInOrder<T>(s: seq<Arrival<T>>, filter: Option<string>)
    requires InOrder(s)
    ensures InOrder(Matching(s, filter))
  {
    if s != [] {
      MatchingInOrder(s[1..], filter);
      SplitKeepsAll(s[1..], filter);
      forall a | a in s[1..] ensures s[0].index < a.index {
      }
    }
  }

  ghost predicate Sound<T>(h: History<T>) {
    Conserved(h) && Numbered(h) && InOrder(h.buffered) && Subset(h.buffered, h.recorded)
  }

  lemma ApplyKeepsSound<T>(max: int, h: History<T>, op: Op<T>)
    requires Sound(h)
    ensures Sound(Apply(max, h, op))
  {
    match op
    case Append(record) => AppendKeepsSound(max, h, record);
    case Listing(filter, drain) =>
      SplitKeepsAll(h.buffered, filter);
      OthersInOrder(h.buffered, filter);
    case Reset =>
  }

  lemma AppendKeepsSound<T>(max: int, h: History<T>, record: Record<T>)
    requires Sound(h)
    ensures Sound(Apply(max, h, Append(record)))
  {
    var a := Arrival(h.count, record);
    var grown := h.buffered + [a];
    var n := if |grown| > max then Dropped(|grown|, max) else 0;
    NewestLast(h, a);
    Cut(grown, n);
    var next := Apply(max, h, Append(record));
    assert multiset(next.recorded) == multiset(h.recorded) + multiset{a};
    assert multiset(grown) == multiset(h.buffered) + multiset{a};
    assert multiset(next.evicted) == multiset(h.evicted) + multiset(grown[..n]);
    Balance(multiset(h.recorded), multiset(h.buffered), multiset(h.delivered), multiset(h.evicted),
            multiset(h.cleared), multiset{a}, multiset(grown[..n]), multiset(grown[n..]));
  }

  lemma Balance<A>(recorded: multiset<A>, buffered: multiset<A>, delivered: multiset<A>, evicted: multiset<A>,
      cleared: multiset<A>, one: multiset<A>, cut: multiset<A>, kept: multiset<A>)
    requires recorded == buffered + delivered + evicted + cleared
    requires buffered + one == cut + kept
    ensures recorded + one == kept + delivered + (evicted + cut) + cleared
  {
    assert recorded + one == (buffered + one) + delivered + evicted + cleared;
  }

  lemma NewestLast<T>(h: History<T>, a: Arrival<T>)
    requires Sound(h) && a.index == h.count
    ensures InOrder(h.buffered + [a])
  {
    forall b | b in h.buffered ensures b.index < h.count {
      assert b in h.recorded;
    }
  }

  lemma Cut<T>(s: seq<Arrival<T>>, n: nat)
    requires n <= |s|
    ensures multiset(s) == multiset(s[..n]) + multiset(s[n..])
  {
    assert s == s[..n] + s[n..];
  }

  /** Over any run: every record is buffered, delivered, evicted or cleared,
      once; the buffer is an in-order part of what was recorded. */
  lemma {:induction false} RunIsSound<T>(max: int, ops: seq<Op<T>>)
    ensures Sound(Run(max, ops))
  {
    if ops != [] {
      RunIsSound(max, ops[..|ops| - 1]);
      ApplyKeepsSound(max, Run(max, ops[..|ops| - 1]), ops[|ops| - 1]);
    }
  }

  /** With unit multiplicity in recorded, conservation means exactly one place. */
  lemma ExactlyOnePlace<T>(max: int, ops: seq<Op<T>>, a: Arrival<T>)
    requires a in Run(max, ops).recorded
    ensures var h := Run(max, ops);
      multiset(h.buffered)[a] + multiset(h.delivered)[a] + multiset(h.evicted)[a] + multiset(h.cleared)[a] == 1
  {
    RunIsSound(max, ops);
    RecordedOnce(Run(max, ops), a);
  }

  lemma RecordedOnce<T>(h: History<T>, a: Arrival<T>)
    requires Numbered(h) && a in h.recorded
    ensures multiset(h.recorded)[a] == 1
  {
    var i :| 0 <= i < |h.recorded| && h.recorded[i] == a;
    var front, back := h.recorded[..i], h.recorded[i + 1..];
    assert h.recorded == front + [a] + back;
    assert a !in front && a !in back;
  }

  // ---------------------------------------------------------------------
  // The cap
  // ---------------------------------------------------------------------

  /** The cap of max records holds over every run exactly when max >= 1. With
      max = 0 the slice drops nothing and the buffer grows without bound. */
  lemma CapExactly<T>(max: int, sample: Record<T>)
    ensures (forall ops: seq<Op<T>> :: |Run(max, ops).buffered| <= max) <==> max >= 1
  {
    if max >= 1 {
      forall ops: seq<Op<T>> ensures |Run(max, ops).buffered| <= max {
        CapHolds(max, ops);
      }
    } else {
      var ops := [Append(sample)];
      assert ops[..0] == [];
      assert Run<T>(max, ops[..0]) == Start();
      assert |Run(max, ops).buffered| > max;
    }
  }

  lemma {:induction false} CapHolds<T>(max: int, ops: seq<Op<T>>)
    requires max >= 1
    ensures |Run(max, ops).buffered| <= max
  {
    if ops != [] {
      var before := Run(max, ops[..|ops| - 1]);
      CapHolds(max, ops[..|ops| - 1]);
      if ops[|ops| - 1].Listing? {
        SplitKeepsAll(before.buffered, ops[|ops| - 1].filter);
      }
    }
  }

  /** A negative limit keeps nothing at all. */
  lemma {:induction false} NothingKeptBelowZero<T>(max: int, ops: seq<Op<T>>)
    requires max < 0
    ensures Run(max, ops).buffered == []
  {
    if ops != [] {
      NothingKeptBelowZero(max, ops[..|ops| - 1]);
    }
  }

  /** The unbounded growth at max = 0. */
  lemma {:induction false} NoCapAtZero<T>(sample: Record<T>, n: nat)
    ensures |Run(0, seq(n, _ => Append(sample))).buffered| == n
  {
    var ops := seq(n, _ => Append(sample));
    if n > 0 {
      NoCapAtZero(sample, n - 1);
      assert ops[..|ops| - 1] == seq(n - 1, _ => Append(sample));
    }
  }

  /** Every recording keeps the newest: its own record and as many of those
      before it as there is room for, the rest evicted. */
  lemma RecordingKeepsNewest<T>(max: int, ops: seq<Op<T>>, record: Record<T>)
    requires max >= 1
    ensures var h, next := Run(max, ops), Run(max, ops + [Append(record)]);
      && next.buffered != [] && next.buffered[|next.buffered| - 1].record == record
      && (exists n: nat :: n <= |h.buffered| && n == |h.buffered| + 1 - |next.buffered|
            && next.buffered[..|next.buffered| - 1] == h.buffered[n..] && next.evicted == h.evicted + h.buffered[..n])
      && |next.buffered| == (if |h.buffered| < max then |h.buffered| + 1 else max)
      && next.delivered == h.delivered && next.cleared == h.cleared
  {
    assert (ops + [Append(record)])[..|ops|] == ops;
    CapHolds(max, ops);
    var h, next := Run(max, ops), Run(max, ops + [Append(record)]);
    var a := Arrival(h.count, record);
    var n := |h.buffered| + 1 - |next.buffered|;
    assert (h.buffered + [a])[n..] == h.buffered[n..] + [a];
    assert (h.buffered + [a])[..n] == h.buffered[..n];
  }

  /** Clearing empties the buffer, whatever is in it; a listing that does not
      drain changes nothing. */
  lemma ClearingAndPeeking<T>(max: int, ops: seq<Op<T>>, filter: Option<string>)
    ensures var h, cleared := Run(max, ops), Run(max, ops + [Reset]);
      cleared.buffered == [] && cleared.cleared == h.cleared + h.buffered && cleared.delivered == h.delivered
    ensures Run(max, ops + [Listing(filter, false)]) == Run(max, ops)
  {
    assert (ops + [Reset])[..|ops|] == ops;
    assert (ops + [Listing(filter, false)])[..|ops|] == ops;
  }

  /** A record is evicted only while max newer ones are buffered, and the
      oldest goes first. */
  lemma EvictedOnlyWhenFull<T>(max: int, ops: seq<Op<T>>, op: Op<T>, a: Arrival<T>)
    requires max >= 1
    requires a in Apply(max, Run(max, ops), op).evicted && a !in Run(max, ops).evicted
    ensures var h := Apply(max, Run(max, ops), op);
      |h.buffered| == max && forall b :: b in h.buffered ==> a.index < b.index
  {
    RunIsSound(max, ops);
    var h := Run(max, ops);
    assert op.Append?;
    var newest := Arrival(h.count, op.record);
    var grown := h.buffered + [newest];
    NewestLast(h, newest);
    var n := if |grown| > max then Dropped(|grown|, max) else 0;
    assert a in grown[..n];
  }
}
