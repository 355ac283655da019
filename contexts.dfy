/** The simulated AFU's context table, `std::map<uint16_t, MachineController *>`
    (test/afu/AFU.cpp), and the round-robin walk over it.

    The map is modelled as the sequence of its entries in ascending key order, which
    is the order every loop of the AFU visits them in; `AsMap` gives the map the
    sequence stands for.  A MachineController is an abstract collaborator: the AFU
    only asks whether its machines are enabled, whether they have all completed and
    whether it owns a tag. */
module AfuContexts {

  datatype Option<T> = None | Some(value: T)

  /** A context id: the 16-bit key of the map. */
  type Id = k: int | 0 <= k < 0x1_0000

  /** A PSL command tag. */
  type Tag = nat

  /** What the AFU observes of one MachineController. */
  datatype Machine = Machine(enabled: bool, completed: bool, tags: set<Tag>)

  /** One entry of the map: a context id and its machine controller. */
  datatype Context = Context(key: Id, mc: Machine)

  predicate Sorted(cs: seq<Context>) {
    forall i, j :: 0 <= i < j < |cs| ==> cs[i].key < cs[j].key
  }

  /** The map a sequence of entries stands for; an earlier entry wins over a later one. */
  function AsMap(cs: seq<Context>): map<Id, Machine> {
    if cs == [] then map[] else AsMap(cs[1..])[cs[0].key := cs[0].mc]
  }

  /** `find`: the position of the first entry with key `k`, if there is one. */
  function Find(cs: seq<Context>, k: Id): (r: Option<nat>)
    ensures r.Some? ==> r.value < |cs| && cs[r.value].key == k
    ensures r.Some? ==> forall i :: 0 <= i < r.value ==> cs[i].key != k
    ensures r.None? <==> forall i :: 0 <= i < |cs| ==> cs[i].key != k
    ensures r.Some? <==> k in AsMap(cs)
    ensures r.Some? ==> AsMap(cs)[k] == cs[r.value].mc
  {
    if cs == [] then None
    else if cs[0].key == k then
      assert AsMap(cs) == AsMap(cs[1..])[k := cs[0].mc];
      Some(0)
    else match Find(cs[1..], k)
      case None => None
      case Some(i) => Some(i + 1)
  }

  /** Where a key belongs in a sorted table: after every smaller key. */
  function InsertPos(cs: seq<Context>, k: Id): (i: nat)
    requires Sorted(cs)
    ensures i <= |cs|
    ensures forall j :: 0 <= j < i ==> cs[j].key < k
    ensures forall j :: i <= j < |cs| ==> k <= cs[j].key
  {
    if cs == [] || k <= cs[0].key then 0 else 1 + InsertPos(cs[1..], k)
  }

  /** The map's `operator[]` assignment of a key that is not yet present: the entry goes
      where the key order puts it. */
  function Insert(cs: seq<Context>, c: Context): (r: seq<Context>)
    requires Sorted(cs) && Find(cs, c.key).None?
    ensures Sorted(r) && |r| == |cs| + 1
  {
    var i := InsertPos(cs, c.key);
    cs[..i] + [c] + cs[i..]
  }

  /** The map of two tables laid end to end: the first one wins. */
  lemma {:induction false} AsMapConcat(a: seq<Context>, b: seq<Context>)
    ensures AsMap(a + b) == AsMap(b) + AsMap(a)
  {
    if a == [] {
      assert a + b == b;
    } else {
      assert (a + b)[1..] == a[1..] + b;
      AsMapConcat(a[1..], b);
      calc {
        AsMap(a + b);
        AsMap(a[1..] + b)[a[0].key := a[0].mc];
        (AsMap(b) + AsMap(a[1..]))[a[0].key := a[0].mc];
        AsMap(b) + AsMap(a[1..])[a[0].key := a[0].mc];
        AsMap(b) + AsMap(a);
      }
    }
  }

  /** Inserting a new key into the table inserts it into the map. */
  lemma InsertIsMapInsert(cs: seq<Context>, c: Context)
    requires Sorted(cs) && Find(cs, c.key).None?
    ensures AsMap(Insert(cs, c)) == AsMap(cs)[c.key := c.mc]
  {
    var i := InsertPos(cs, c.key);
    var front, back := cs[..i], cs[i..];
    assert cs == front + back;
    assert Insert(cs, c) == front + ([c] + back);
    AsMapConcat(front, [c] + back);
    AsMapConcat(front, back);
    assert AsMap([c] + back) == AsMap(back)[c.key := c.mc] by {
      assert ([c] + back)[1..] == back;
    }
    assert c.key !in AsMap(front) by {
      assert Find(front, c.key).None? by {
        assert forall j :: 0 <= j < |front| ==> front[j] == cs[j];
      }
    }
    AddFreshKey(AsMap(back), AsMap(front), c.key, c.mc);
  }

  lemma AddFreshKey(b: map<Id, Machine>, f: map<Id, Machine>, k: Id, m: Machine)
    requires k !in f
    ensures b[k := m] + f == (b + f)[k := m]
  {
  }

  /** `erase(k)`: the entry with key `k` leaves the table, and a missing key changes nothing. */
  function Erase(cs: seq<Context>, k: Id): (r: seq<Context>)
    requires Sorted(cs)
    ensures Sorted(r)
    ensures Find(cs, k).None? ==> r == cs
    ensures Find(cs, k).Some? ==> |r| + 1 == |cs|
  {
    match Find(cs, k)
    case None => cs
    case Some(i) => cs[..i] + cs[i + 1..]
  }

  /** Erasing a key from the table erases it from the map and nothing else changes. */
  lemma EraseIsMapErase(cs: seq<Context>, k: Id)
    requires Sorted(cs)
    ensures AsMap(Erase(cs, k)) == AsMap(cs) - {k}
  {
    match Find(cs, k)
    case None =>
    case Some(i) =>
      var front, back := cs[..i], cs[i + 1..];
      assert cs == front + ([cs[i]] + back);
      assert Erase(cs, k) == front + back;
      AsMapConcat(front, [cs[i]] + back);
      AsMapConcat(front, back);
      assert AsMap([cs[i]] + back) == AsMap(back)[k := cs[i].mc] by {
        assert ([cs[i]] + back)[1..] == back;
      }
      KeyOnlyAt(cs, i);
      DropFreshKey(AsMap(back), AsMap(front), k, cs[i].mc);
  }

  /** In a sorted table the key at position `i` occurs neither before nor after it. */
  lemma KeyOnlyAt(cs: seq<Context>, i: nat)
    requires Sorted(cs) && i < |cs|
    ensures cs[i].key !in AsMap(cs[..i]) && cs[i].key !in AsMap(cs[i + 1..])
  {
    var front, back := cs[..i], cs[i + 1..];
    assert Find(front, cs[i].key).None? by {
      assert forall j :: 0 <= j < |front| ==> front[j] == cs[j];
    }
    assert Find(back, cs[i].key).None? by {
      assert forall j :: 0 <= j < |back| ==> back[j] == cs[i + 1 + j];
    }
  }

  lemma DropFreshKey(b: map<Id, Machine>, f: map<Id, Machine>, k: Id, m: Machine)
    requires k !in b && k !in f
    ensures (b[k := m] + f) - {k} == b + f
  {
  }

  /** The id sequence of the table. */
  function Keys(cs: seq<Context>): (ks: seq<Id>)
    ensures |ks| == |cs| && forall i :: 0 <= i < |cs| ==> ks[i] == cs[i].key
  {
    seq(|cs|, i requires 0 <= i < |cs| => cs[i].key)
  }

  /** Tables with the same ids answer `find` alike. */
  lemma {:induction false} SameKeysSameFind(a: seq<Context>, b: seq<Context>, k: Id)
    requires Keys(a) == Keys(b)
    ensures Find(a, k) == Find(b, k)
    decreases |a|
  {
    if a != [] {
      assert Keys(a[1..]) == Keys(b[1..]) by {
        assert Keys(a[1..]) == Keys(a)[1..] && Keys(b[1..]) == Keys(b)[1..];
      }
      SameKeysSameFind(a[1..], b[1..], k);
    }
  }

  /** The machine at position `i` told to `disable_all_machines`. */
  function DisableAt(cs: seq<Context>, i: nat): (r: seq<Context>)
    requires i < |cs|
    ensures Keys(r) == Keys(cs) && (Sorted(cs) ==> Sorted(r))
    ensures !r[i].mc.enabled && r[i].mc.completed == cs[i].mc.completed && r[i].mc.tags == cs[i].mc.tags
    ensures forall j :: 0 <= j < |cs| && j != i ==> r[j] == cs[j]
  {
    cs[i := Context(cs[i].key, cs[i].mc.(enabled := false))]
  }

  /** Every machine of the table told to `disable_all_machines`. */
  function DisableAll(cs: seq<Context>): (r: seq<Context>)
    ensures Keys(r) == Keys(cs) && (Sorted(cs) ==> Sorted(r))
    ensures forall i :: 0 <= i < |r| ==>
      !r[i].mc.enabled && r[i].mc.completed == cs[i].mc.completed && r[i].mc.tags == cs[i].mc.tags
  {
    seq(|cs|, i requires 0 <= i < |cs| => Context(cs[i].key, cs[i].mc.(enabled := false)))
  }

  /** `all_machines_completed` holds for every context. */
  predicate AllCompleted(cs: seq<Context>) {
    forall i :: 0 <= i < |cs| ==> cs[i].mc.completed
  }

  /** `is_enabled` holds for some context. */
  predicate AnyEnabled(cs: seq<Context>) {
    exists i :: 0 <= i < |cs| && cs[i].mc.enabled
  }

  /** The first context, in key order, whose machine owns `tag` (`has_tag`). */
  function FirstOwner(cs: seq<Context>, tag: Tag): (r: Option<nat>)
    ensures r.Some? ==> r.value < |cs| && tag in cs[r.value].mc.tags
    ensures r.Some? ==> forall i :: 0 <= i < r.value ==> tag !in cs[i].mc.tags
    ensures r.None? <==> forall i :: 0 <= i < |cs| ==> tag !in cs[i].mc.tags
  {
    if cs == [] then None
    else if tag in cs[0].mc.tags then Some(0)
    else match FirstOwner(cs[1..], tag)
      case None => None
      case Some(i) => Some(i + 1)
  }

  // ---------------------------------------------------------------------------
  // The round-robin walk (test/afu/AFU.cpp:139-156)
  //
  // A cursor position is an index 0..n of a table of n entries; n is `end()`.
  // ---------------------------------------------------------------------------

  /** The position `d` steps after `start` in cyclic order. */
  function Cyclic(n: nat, start: nat, d: nat): (p: nat)
    requires start < n && d < n
    ensures p < n
  {
    if start + d < n then start + d else start + d - n
  }

  /** How many steps after `start` position `p` comes: the inverse of `Cyclic`. */
  function StepsTo(n: nat, start: nat, p: nat): (d: nat)
    requires start < n && p < n
    ensures d < n && Cyclic(n, start, d) == p
  {
    if p >= start then p - start else p + n - start
  }

  /** The earliest step `d' >= d` after `start` whose context is ready to send. */
  function FirstSender(cs: seq<Context>, senders: set<Id>, start: nat, d: nat): (r: Option<nat>)
    requires start < |cs| && d <= |cs|
    ensures r.Some? ==> d <= r.value < |cs| && cs[Cyclic(|cs|, start, r.value)].key in senders
    ensures r.Some? ==> forall e :: d <= e < r.value ==> cs[Cyclic(|cs|, start, e)].key !in senders
    ensures r.None? ==> forall e :: d <= e < |cs| ==> cs[Cyclic(|cs|, start, e)].key !in senders
    decreases |cs| - d
  {
    if d == |cs| then None
    else if cs[Cyclic(|cs|, start, d)].key in senders then Some(d)
    else FirstSender(cs, senders, start, d + 1)
  }

  /** Where the walk starts: the cursor, or `begin()` when the cursor is `end()`. */
  function StartOf(n: nat, cursor: nat): (start: nat)
    requires 0 < n && cursor <= n
    ensures start < n
  {
    if cursor == n then 0 else cursor
  }

  /** The intended walk: offer each context once, starting at the cursor, until one sends;
      the cursor then moves just past that context, and stays where it was if none sends. */
  function RoundRobin(cs: seq<Context>, senders: set<Id>, cursor: nat): (p: nat)
    requires 0 < |cs| && cursor <= |cs|
    ensures p <= |cs|
    ensures (forall i :: 0 <= i < |cs| ==> cs[i].key !in senders) <==> FirstSender(cs, senders, StartOf(|cs|, cursor), 0).None?
    ensures FirstSender(cs, senders, StartOf(|cs|, cursor), 0).None? ==> p == cursor
    ensures FirstSender(cs, senders, StartOf(|cs|, cursor), 0).Some? ==> 0 < p && cs[p - 1].key in senders
  {
    var start := StartOf(|cs|, cursor);
    match FirstSender(cs, senders, start, 0)
    case None =>
      assert forall i :: 0 <= i < |cs| ==> cs[i].key !in senders by {
        forall i | 0 <= i < |cs| ensures cs[i].key !in senders {
          assert cs[Cyclic(|cs|, start, StepsTo(|cs|, start, i))].key !in senders;
        }
      }
      cursor
    case Some(d) => Cyclic(|cs|, start, d) + 1
  }

  /** When the favoured context sends, the cursor advances by exactly one position,
      and from `end()` it wraps to just after `begin()`. */
  lemma FavouredSenderAdvancesByOne(cs: seq<Context>, senders: set<Id>, cursor: nat)
    requires 0 < |cs| && cursor <= |cs|
    requires cs[StartOf(|cs|, cursor)].key in senders
    ensures RoundRobin(cs, senders, cursor) == (if cursor == |cs| then 1 else cursor + 1)
  {
    assert Cyclic(|cs|, StartOf(|cs|, cursor), 0) == StartOf(|cs|, cursor);
  }

  /** The walk passes over only contexts that are not ready: every context strictly between
      the start and the one that sends is skipped. */
  lemma RoundRobinSkipsOnlyIdle(cs: seq<Context>, senders: set<Id>, cursor: nat, e: nat)
    requires 0 < |cs| && cursor <= |cs|
    requires FirstSender(cs, senders, StartOf(|cs|, cursor), 0) == Some(e)
    ensures RoundRobin(cs, senders, cursor) == Cyclic(|cs|, StartOf(|cs|, cursor), e) + 1
    ensures forall d :: 0 <= d < e ==> cs[Cyclic(|cs|, StartOf(|cs|, cursor), d)].key !in senders
  {
  }

  /** One pass of the do-while loop as written: starting from position `p`, wrap `end()`
      to `begin()`, offer the context there, then step past it and stop if it sent or if
      the new position equals the saved one. */
  datatype Pass = Again(p: nat) | Done(p: nat)

  function AsWrittenPass(cs: seq<Context>, senders: set<Id>, prev: nat, p: nat): (r: Pass)
    requires 0 < |cs| && p <= |cs|
    ensures r.p <= |cs| && 0 < r.p
  {
    var q := if p == |cs| then 0 else p;
    if cs[q].key in senders then Done(q + 1)
    else if q + 1 == prev then Done(q + 1)
    else Again(q + 1)
  }

  /** At most `fuel` passes of the loop as written: the final position, or None when the
      loop is still running. */
  function AsWrittenWalk(cs: seq<Context>, senders: set<Id>, prev: nat, p: nat, fuel: nat): (r: Option<nat>)
    requires 0 < |cs| && p <= |cs|
    ensures r.Some? ==> r.value <= |cs|
    decreases fuel
  {
    if fuel == 0 then None
    else match AsWrittenPass(cs, senders, prev, p)
      case Done(p') => Some(p')
      case Again(p') => AsWrittenWalk(cs, senders, prev, p', fuel - 1)
  }

  /** The loop as written never ends when the cursor is `begin()` and no context is ready:
      a position reached by `++` is never 0 again. */
  lemma {:induction false} AsWrittenHangsAtBegin(cs: seq<Context>, senders: set<Id>, p: nat, fuel: nat)
    requires 0 < |cs| && p <= |cs|
    requires forall i :: 0 <= i < |cs| ==> cs[i].key !in senders
    ensures AsWrittenWalk(cs, senders, 0, p, fuel).None?
    decreases fuel
  {
    if fuel > 0 {
      var q := if p == |cs| then 0 else p;
      assert cs[q].key !in senders;
      AsWrittenHangsAtBegin(cs, senders, AsWrittenPass(cs, senders, 0, p).p, fuel - 1);
    }
  }

  /** The position the loop as written holds after `d` passes that found no sender. */
  function PositionAfter(n: nat, prev: nat, d: nat): (p: nat)
    requires 0 < n && prev <= n && d <= n
    ensures p <= n
  {
    if d == 0 then prev else Cyclic(n, StartOf(n, prev), d - 1) + 1
  }

  lemma {:induction false} AsWrittenWalkFrom(cs: seq<Context>, senders: set<Id>, prev: nat, d: nat, fuel: nat)
    requires 0 < |cs| && prev <= |cs| && d < |cs| && fuel >= |cs| - d
    requires prev != 0 || FirstSender(cs, senders, StartOf(|cs|, prev), 0).Some?
    requires forall e :: 0 <= e < d ==> cs[Cyclic(|cs|, StartOf(|cs|, prev), e)].key !in senders
    ensures AsWrittenWalk(cs, senders, prev, PositionAfter(|cs|, prev, d), fuel) == Some(RoundRobin(cs, senders, prev))
    decreases |cs| - d
  {
    var n, start := |cs|, StartOf(|cs|, prev);
    var p := PositionAfter(n, prev, d);
    var q := Cyclic(n, start, d);
    assert (if p == n then 0 else p) == q;
    var first := FirstSender(cs, senders, start, 0);
    if cs[q].key in senders {
      assert first == Some(d);
    } else if q + 1 == prev {
      assert d == n - 1;
      assert first.None?;
    } else {
      assert d + 1 < n;
      assert AsWrittenPass(cs, senders, prev, p) == Again(q + 1);
      assert PositionAfter(n, prev, d + 1) == q + 1;
      AsWrittenWalkFrom(cs, senders, prev, d + 1, fuel - 1);
    }
  }

  /** Wherever the loop as written ends, it ends where the intended walk puts the cursor:
      it differs from `RoundRobin` only by never ending at `begin()` when no context is ready. */
  lemma AsWrittenAgreesWhenItEnds(cs: seq<Context>, senders: set<Id>, prev: nat)
    requires 0 < |cs| && prev <= |cs|
    requires prev != 0 || exists i :: 0 <= i < |cs| && cs[i].key in senders
    ensures AsWrittenWalk(cs, senders, prev, prev, |cs|) == Some(RoundRobin(cs, senders, prev))
  {
    if prev == 0 {
      var i :| 0 <= i < |cs| && cs[i].key in senders;
      assert FirstSender(cs, senders, StartOf(|cs|, prev), 0).Some? by {
        assert RoundRobin(cs, senders, prev) <= |cs|;
      }
    }
    AsWrittenWalkFrom(cs, senders, prev, 0, |cs|);
  }

  /** No context is ready to send in this pass. */
  predicate NoneSends(cs: seq<Context>, senders: set<Id>) {
    forall i :: 0 <= i < |cs| ==> cs[i].key !in senders
  }

  /** The loop of the event loop as written, given the |cs| passes within which it ends if it
      ends at all: `None` exactly when the saved cursor is `begin()` and no context is ready
      (and then no number of passes ends it, `AsWrittenHangsAtBegin`); otherwise the loop ends
      where the intended walk puts the cursor. */
  function AsWrittenRoundRobin(cs: seq<Context>, senders: set<Id>, cursor: nat): (r: Option<nat>)
    requires 0 < |cs| && cursor <= |cs|
    ensures r.None? <==> cursor == 0 && NoneSends(cs, senders)
    ensures r.Some? ==> r.value == RoundRobin(cs, senders, cursor)
  {
    if cursor == 0 && NoneSends(cs, senders) then
      AsWrittenHangsAtBegin(cs, senders, 0, |cs|);
      AsWrittenWalk(cs, senders, cursor, cursor, |cs|)
    else
      AsWrittenAgreesWhenItEnds(cs, senders, cursor);
      AsWrittenWalk(cs, senders, cursor, cursor, |cs|)
  }
}
