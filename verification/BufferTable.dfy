/** The tracer's slot table, changed in place, and the finite map from pointers that it stands for. */
module BufferTable {

  datatype Kind = Device | Host | Managed

  datatype Slot = Slot(ptr: nat, size: nat, kind: Kind, inUse: bool, id: nat)

  /** The table's value: the slots, the counter and the next allocation id. */
  datatype Table = Table(slots: seq<Slot>, count: int, next: nat)

  // --- what the operations do to the value ---

  /** The first free slot from `i` on, or the number of slots. */
  function FirstFree(slots: seq<Slot>, i: nat): (r: nat)
    requires i <= |slots|
    ensures i <= r <= |slots| && (r < |slots| ==> !slots[r].inUse)
    ensures forall j :: i <= j < r ==> slots[j].inUse
    decreases |slots| - i
  {
    if i == |slots| || !slots[i].inUse then i else FirstFree(slots, i + 1)
  }

  predicate Holds(s: Slot, ptr: nat) {
    s.inUse && s.ptr == ptr
  }

  /** The first slot from `i` on that holds the pointer, or the number of slots. */
  function FirstHolding(slots: seq<Slot>, ptr: nat, i: nat): (r: nat)
    requires i <= |slots|
    ensures i <= r <= |slots| && (r < |slots| ==> Holds(slots[r], ptr))
    ensures forall j :: i <= j < r ==> !Holds(slots[j], ptr)
    decreases |slots| - i
  {
    if i == |slots| || Holds(slots[i], ptr) then i else FirstHolding(slots, ptr, i + 1)
  }

  function Added(t: Table, ptr: nat, size: nat, kind: Kind): Table {
    var i := FirstFree(t.slots, 0);
    if ptr == 0 || size == 0 || i == |t.slots| then t
    else Table(t.slots[i := Slot(ptr, size, kind, true, t.next)], t.count + 1, t.next + 1)
  }

  function Removed(t: Table, ptr: nat): Table {
    var i := FirstHolding(t.slots, ptr, 0);
    if ptr == 0 || i == |t.slots| then t
    else Table(t.slots[i := t.slots[i].(inUse := false)], t.count - 1, t.next)
  }

  // --- the table in place ---

  class Tracker {
    const buffers: array<Slot>
    var count: int
    var nextAllocId: nat

    constructor (capacity: nat)
      ensures fresh(buffers) && buffers.Length == capacity && Value() == Empty(capacity)
    {
      buffers := new Slot[capacity](_ => Slot(0, 0, Device, false, 0));
      count, nextAllocId := 0, 1;
    }

    function Value(): Table
      reads this, buffers
    {
      Table(buffers[..], count, nextAllocId)
    }

    method Add(ptr: nat, size: nat, kind: Kind)
      modifies this, buffers
      ensures Value() == Added(old(Value()), ptr, size, kind)
    {
      if ptr == 0 || size == 0 {
        return;
      }
      var i := 0;
      while i < buffers.Length && buffers[i].inUse
        invariant i <= buffers.Length && FirstFree(buffers[..], 0) == FirstFree(buffers[..], i)
      {
        i := i + 1;
      }
      if i == buffers.Length {
        return;
      }
      buffers[i] := Slot(ptr, size, kind, true, nextAllocId);
      nextAllocId := nextAllocId + 1;
      count := count + 1;
      assert buffers[..] == old(buffers[..])[i := buffers[i]];
    }

    method Remove(ptr: nat)
      modifies this, buffers
      ensures Value() == Removed(old(Value()), ptr)
    {
      if ptr == 0 {
        return;
      }
      var i := 0;
      while i < buffers.Length && !(buffers[i].inUse && buffers[i].ptr == ptr)
        invariant i <= buffers.Length && FirstHolding(buffers[..], ptr, 0) == FirstHolding(buffers[..], ptr, i)
      {
        i := i + 1;
      }
      if i == buffers.Length {
        return;
      }
      buffers[i] := buffers[i].(inUse := false);
      count := count - 1;
      assert buffers[..] == old(buffers[..])[i := buffers[i]];
    }
  }

  // --- the invariant ---

  const FREE := Slot(0, 0, Device, false, 0)

  function Empty(capacity: nat): Table {
    Table(seq(capacity, _ => FREE), 0, 1)
  }

  function Used(slots: seq<Slot>, n: nat): nat
    requires n <= |slots|
  {
    if n == 0 then 0 else Used(slots, n - 1) + if slots[n - 1].inUse then 1 else 0
  }

  predicate Apart(slots: seq<Slot>, i: nat, j: nat)
    requires i < |slots| && j < |slots|
  {
    slots[i].inUse && slots[j].inUse ==> slots[i].id != slots[j].id
  }

  /** The counter counts the used slots; their ids are distinct and below the next one. */
  ghost predicate Sound(t: Table) {
    && t.count == Used(t.slots, |t.slots|)
    && (forall i :: 0 <= i < |t.slots| && t.slots[i].inUse ==> t.slots[i].id < t.next && t.slots[i].ptr != 0 && t.slots[i].size > 0)
    && (forall i, j :: 0 <= i < |t.slots| && 0 <= j < |t.slots| && i != j ==> Apart(t.slots, i, j))
  }

  lemma {:induction false} UsedUpdate(slots: seq<Slot>, i: nat, s: Slot, n: nat)
    requires i < |slots| && n <= |slots|
    ensures Used(slots[i := s], n) ==
              if i < n then Used(slots, n) - (if slots[i].inUse then 1 else 0) + (if s.inUse then 1 else 0) else Used(slots, n)
  {
    if n > 0 {
      UsedUpdate(slots, i, s, n - 1);
    }
  }

  /** There is a free slot exactly when the counter is below the capacity. */
  lemma {:induction false} UsedFull(slots: seq<Slot>, n: nat)
    requires n <= |slots|
    ensures Used(slots, n) <= n && (Used(slots, n) == n <==> forall i :: 0 <= i < n ==> slots[i].inUse)
  {
    if n > 0 {
      UsedFull(slots, n - 1);
    }
  }

  lemma {:induction false} NoneUsed(slots: seq<Slot>, n: nat)
    requires n <= |slots| && forall i :: 0 <= i < n ==> !slots[i].inUse
    ensures Used(slots, n) == 0
  {
    if n > 0 {
      NoneUsed(slots, n - 1);
    }
  }

  lemma RoomMeansFree(t: Table)
    requires Sound(t)
    ensures FirstFree(t.slots, 0) < |t.slots| <==> t.count < |t.slots|
  {
    UsedFull(t.slots, |t.slots|);
  }

  lemma AddedSound(t: Table, ptr: nat, size: nat, kind: Kind)
    requires Sound(t)
    ensures Sound(Added(t, ptr, size, kind))
  {
    var i := FirstFree(t.slots, 0);
    if i < |t.slots| {
      UsedUpdate(t.slots, i, Slot(ptr, size, kind, true, t.next), |t.slots|);
    }
    var u := Added(t, ptr, size, kind);
    forall j, k | 0 <= j < |u.slots| && 0 <= k < |u.slots| && j != k ensures Apart(u.slots, j, k) {
      assert Apart(t.slots, j, k);
    }
  }

  lemma RemovedSound(t: Table, ptr: nat)
    requires Sound(t)
    ensures Sound(Removed(t, ptr))
  {
    var i := FirstHolding(t.slots, ptr, 0);
    if i < |t.slots| {
      UsedUpdate(t.slots, i, t.slots[i].(inUse := false), |t.slots|);
    }
    var u := Removed(t, ptr);
    forall j, k | 0 <= j < |u.slots| && 0 <= k < |u.slots| && j != k ensures Apart(u.slots, j, k) {
      assert Apart(t.slots, j, k);
    }
  }

  // --- the map ---

  datatype Entry = Entry(size: nat, kind: Kind, id: nat)

  function EntryOf(s: Slot): Entry {
    Entry(s.size, s.kind, s.id)
  }

  ghost predicate Tracked(slots: seq<Slot>, p: nat) {
    exists i :: 0 <= i < |slots| && Holds(slots[i], p)
  }

  predicate Recorded(s: Slot, m: map<nat, Entry>) {
    s.inUse ==> s.ptr in m && m[s.ptr] == EntryOf(s)
  }

  /** The used slots are the map: same pointers, same entries, one slot each. */
  ghost predicate Stands(t: Table, m: map<nat, Entry>) {
    && (forall i :: 0 <= i < |t.slots| ==> Recorded(t.slots[i], m))
    && (forall p :: p in m ==> Tracked(t.slots, p))
    && t.count == |m|
  }

  lemma AddStands(t: Table, m: map<nat, Entry>, i: nat, s: Slot)
    requires Stands(t, m) && i < |t.slots| && !t.slots[i].inUse && s.inUse && s.ptr !in m
    ensures Stands(Table(t.slots[i := s], t.count + 1, t.next + 1), m[s.ptr := EntryOf(s)])
  {
    var slots, v := t.slots[i := s], m[s.ptr := EntryOf(s)];
    assert v.Keys == m.Keys + {s.ptr};
    assert |v| == |v.Keys| && |m| == |m.Keys|;
    forall k | 0 <= k < |slots| ensures Recorded(slots[k], v) {
      assert k != i ==> Recorded(t.slots[k], m);
    }
    forall p | p in v ensures Tracked(slots, p) {
      assert Holds(slots[i], s.ptr);
      if p != s.ptr {
        var j :| 0 <= j < |t.slots| && Holds(t.slots[j], p);
        assert Holds(slots[j], p);
      }
    }
  }

  /** Tracking a pointer is a map update that disturbs no other entry exactly when the pointer is not
      tracked already and the table is not full. */
  lemma AddExact(t: Table, m: map<nat, Entry>, ptr: nat, size: nat, kind: Kind)
    requires Sound(t) && Stands(t, m) && ptr != 0 && size > 0
    ensures Stands(Added(t, ptr, size, kind), m[ptr := Entry(size, kind, t.next)]) <==> ptr !in m && |m| < |t.slots|
  {
    RoomMeansFree(t);
    var i, s := FirstFree(t.slots, 0), Slot(ptr, size, kind, true, t.next);
    if ptr in m {
      StaleClash(t, m, i, s);
    } else if i < |t.slots| {
      AddStands(t, m, i, s);
    } else {
      var v := m[ptr := EntryOf(s)];
      assert v.Keys == m.Keys + {ptr} && |v| == |v.Keys| && |m| == |m.Keys|;
    }
  }

  /** The slot that holds the pointer already keeps its old id. */
  lemma StaleClash(t: Table, m: map<nat, Entry>, i: nat, s: Slot)
    requires Sound(t) && Stands(t, m) && i <= |t.slots| && (i < |t.slots| ==> !t.slots[i].inUse) && s.ptr in m && s.id == t.next
    ensures var slots := if i < |t.slots| then t.slots[i := s] else t.slots;
            exists j :: 0 <= j < |slots| && !Recorded(slots[j], m[s.ptr := EntryOf(s)])
  {
    var slots, v := if i < |t.slots| then t.slots[i := s] else t.slots, m[s.ptr := EntryOf(s)];
    assert Tracked(t.slots, s.ptr);
    var j :| 0 <= j < |t.slots| && Holds(t.slots[j], s.ptr);
    assert slots[j] == t.slots[j] && !Recorded(slots[j], v);
  }

  lemma RemoveStands(t: Table, m: map<nat, Entry>, i: nat)
    requires Sound(t) && Stands(t, m) && i < |t.slots| && t.slots[i].inUse
    ensures Stands(Table(t.slots[i := t.slots[i].(inUse := false)], t.count - 1, t.next), m - {t.slots[i].ptr})
  {
    var ptr := t.slots[i].ptr;
    var slots, v := t.slots[i := t.slots[i].(inUse := false)], m - {ptr};
    assert Recorded(t.slots[i], m);
    assert m.Keys == v.Keys + {ptr};
    assert |v| == |v.Keys| && |m| == |m.Keys|;
    forall k | 0 <= k < |slots| ensures Recorded(slots[k], v) {
      assert Recorded(t.slots[k], m);
      assert k != i ==> Apart(t.slots, k, i);
    }
    forall p | p in v ensures Tracked(slots, p) {
      assert Tracked(t.slots, p);
      var j :| 0 <= j < |t.slots| && Holds(t.slots[j], p);
      assert Holds(slots[j], p);
    }
  }

  /** Forgetting a pointer removes it from the map and leaves every other entry. */
  lemma RemoveExact(t: Table, m: map<nat, Entry>, ptr: nat)
    requires Sound(t) && Stands(t, m)
    ensures Stands(Removed(t, ptr), m - {ptr})
  {
    var i := FirstHolding(t.slots, ptr, 0);
    if i == |t.slots| {
      assert !Tracked(t.slots, ptr) && ptr !in m;
      assert m - {ptr} == m;
      assert Removed(t, ptr) == t;
    } else {
      RemoveStands(t, m, i);
    }
  }

  // --- whole runs ---

  /** A successful allocation or a free, as the wrapped calls see them. */
  datatype Event = Malloc(ptr: nat, size: nat, kind: Kind) | Free(ptr: nat)

  function Step(t: Table, e: Event): Table {
    match e
    case Malloc(p, size, kind) => Added(t, p, size, kind)
    case Free(p) => Removed(t, p)
  }

  function Run(t: Table, events: seq<Event>, n: nat): Table
    requires n <= |events|
  {
    if n == 0 then t else Step(Run(t, events, n - 1), events[n - 1])
  }

  /** The reference: a map and the next id. */
  datatype Book = Book(live: map<nat, Entry>, next: nat)

  function Enter(b: Book, e: Event): Book {
    match e
    case Malloc(p, size, kind) => if p == 0 || size == 0 then b else Book(b.live[p := Entry(size, kind, b.next)], b.next + 1)
    case Free(p) => Book(b.live - {p}, b.next)
  }

  function Keep(b: Book, events: seq<Event>, n: nat): Book
    requires n <= |events|
  {
    if n == 0 then b else Enter(Keep(b, events, n - 1), events[n - 1])
  }

  /** The event issues no tracked pointer and finds room. */
  predicate Fits(capacity: nat, b: Book, e: Event) {
    e.Malloc? && e.ptr != 0 && e.size > 0 ==> e.ptr !in b.live && |b.live| < capacity
  }

  lemma StepSound(t: Table, e: Event)
    requires Sound(t)
    ensures Sound(Step(t, e)) && |Step(t, e).slots| == |t.slots|
  {
    match e
    case Malloc(p, size, kind) => AddedSound(t, p, size, kind);
    case Free(p) => RemovedSound(t, p);
  }

  lemma StepStands(t: Table, b: Book, e: Event)
    requires Sound(t) && Stands(t, b.live) && t.next == b.next
    ensures Stands(Step(t, e), Enter(b, e).live) <==> Fits(|t.slots|, b, e)
    ensures Fits(|t.slots|, b, e) ==> Step(t, e).next == Enter(b, e).next
  {
    match e
    case Malloc(p, size, kind) =>
      if p != 0 && size != 0 {
        AddExact(t, b.live, p, size, kind);
        RoomMeansFree(t);
      }
    case Free(p) => RemoveExact(t, b.live, p);
  }

  /** In every run the counter and the ids are sound, whatever is issued. */
  lemma {:induction false} RunSound(capacity: nat, events: seq<Event>, n: nat)
    requires n <= |events|
    ensures Sound(Run(Empty(capacity), events, n)) && |Run(Empty(capacity), events, n).slots| == capacity
  {
    if n == 0 {
      NoneUsed(Empty(capacity).slots, capacity);
    } else {
      RunSound(capacity, events, n - 1);
      StepSound(Run(Empty(capacity), events, n - 1), events[n - 1]);
    }
  }

  /** From book `b` on, no tracked pointer is issued again and there is always room. */
  predicate Honest(capacity: nat, b: Book, events: seq<Event>, i: nat)
    requires i <= |events|
    decreases |events| - i
  {
    i == |events| || (Fits(capacity, b, events[i]) && Honest(capacity, Enter(b, events[i]), events, i + 1))
  }

  /** From table `t` and book `b` on, the table stands for the map after every event. */
  ghost predicate Agree(t: Table, b: Book, events: seq<Event>, i: nat)
    requires i <= |events|
    decreases |events| - i
  {
    Stands(t, b.live) && (i == |events| || Agree(Step(t, events[i]), Enter(b, events[i]), events, i + 1))
  }

  /** They also hand out the same ids throughout. */
  predicate InStep(t: Table, b: Book, events: seq<Event>, i: nat)
    requires i <= |events|
    decreases |events| - i
  {
    t.next == b.next && (i == |events| || InStep(Step(t, events[i]), Enter(b, events[i]), events, i + 1))
  }

  lemma {:induction false} HonestExact(t: Table, b: Book, events: seq<Event>, i: nat)
    requires i <= |events| && Sound(t) && Stands(t, b.live) && t.next == b.next
    ensures Agree(t, b, events, i) <==> Honest(|t.slots|, b, events, i)
    ensures Honest(|t.slots|, b, events, i) ==> InStep(t, b, events, i)
    decreases |events| - i
  {
    if i < |events| {
      StepStands(t, b, events[i]);
      if Fits(|t.slots|, b, events[i]) {
        StepSound(t, events[i]);
        HonestExact(Step(t, events[i]), Enter(b, events[i]), events, i + 1);
      }
    }
  }

  /** Over whole runs: the table is the map from pointers after every event if and only if no tracked
      pointer was issued again and there was always room; then it also hands out the same ids. */
  lemma RunIsMap(capacity: nat, events: seq<Event>)
    ensures Agree(Empty(capacity), Book(map[], 1), events, 0) <==> Honest(capacity, Book(map[], 1), events, 0)
    ensures Honest(capacity, Book(map[], 1), events, 0) ==> InStep(Empty(capacity), Book(map[], 1), events, 0)
  {
    var t := Empty(capacity);
    NoneUsed(t.slots, capacity);
    forall i | 0 <= i < |t.slots| ensures Recorded(t.slots[i], map[]) {
      assert !t.slots[i].inUse;
    }
    HonestExact(t, Book(map[], 1), events, 0);
  }

  /** A pointer issued to a full table is dropped, and never found again. */
  lemma FullDrops(t: Table, m: map<nat, Entry>, ptr: nat, size: nat, kind: Kind)
    requires Sound(t) && Stands(t, m) && |m| == |t.slots|
    ensures Added(t, ptr, size, kind) == t && (ptr !in m ==> Removed(Added(t, ptr, size, kind), ptr) == t)
  {
    RoomMeansFree(t);
    if ptr !in m {
      assert forall i :: 0 <= i < |t.slots| ==> Recorded(t.slots[i], m);
    }
  }

  /** Issuing a tracked pointer again leaves a stale entry behind after it is freed. */
  lemma ReissueLeaves(capacity: nat, kind: Kind)
    requires capacity >= 2
    ensures var events := [Malloc(16, 4, kind), Malloc(16, 8, kind), Free(16)];
            Run(Empty(capacity), events, 3).count == 1 && Keep(Book(map[], 1), events, 3).live == map[]
  {
    var events := [Malloc(16, 4, kind), Malloc(16, 8, kind), Free(16)];
    var t0 := Run(Empty(capacity), events, 0);
    var t1 := Run(Empty(capacity), events, 1);
    assert events[0] == Malloc(16, 4, kind) && FirstFree(t0.slots, 0) == 0;
    assert t1.slots[0].inUse && t1.slots[0].ptr == 16 && !t1.slots[1].inUse;
    var t2 := Run(Empty(capacity), events, 2);
    assert events[1] == Malloc(16, 8, kind) && FirstFree(t1.slots, 0) == 1;
    assert Holds(t2.slots[0], 16) && FirstHolding(t2.slots, 16, 0) == 0;
    assert events[2] == Free(16);
    var b0 := Keep(Book(map[], 1), events, 0);
    var b1 := Keep(Book(map[], 1), events, 1);
    assert b1.live.Keys == {16};
    var b2 := Keep(Book(map[], 1), events, 2);
    assert b2.live.Keys == {16};
    assert Keep(Book(map[], 1), events, 3).live == b2.live - {16};
  }
}
