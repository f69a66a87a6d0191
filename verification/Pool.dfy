/** The exact pool: every reservation is backed by one HAL buffer, and no reference is lost or freed
    twice, however reservations are materialized, transferred and released. */
module Pool {
  import opened Wrappers

  datatype Params = Params(usage: nat, access: nat, kind: nat, affinity: nat, alignment: nat)

  /** `block` 0 is the null handle of an empty reservation. */
  datatype Reservation = Reservation(length: nat, block: nat)

  datatype Status = Ok | InvalidArgument | HalError

  class ExactPool {
    const params: Params
    /** HAL buffers with their reference counts, and those freed so far. */
    var refs: map<nat, nat>
    var freed: seq<nat>
    var next: nat
    var signals: nat
    /** Blocks with a reservation that was neither released nor transferred; buffer references clients hold. */
    var reserved: set<nat>
    var held: map<nat, nat>

    constructor (params: Params)
      ensures Valid() && this.params == params && refs == map[] && next == 1 && reserved == {} && held == map[]
    {
      this.params := params;
      refs, freed, next, signals, reserved, held := map[], [], 1, 0, {}, map[];
    }

    ghost function Held(b: nat): nat
      reads this
    {
      if b in held then held[b] else 0
    }

    /** A buffer's count is its open reservation plus the materialized references to it. */
    ghost predicate Conserved()
      reads this
    {
      && (forall b :: b in refs ==> 0 < b < next && refs[b] == (if b in reserved then 1 else 0) + Held(b) > 0)
      && (forall b :: b in reserved || Held(b) > 0 ==> b in refs)
    }

    /** Every buffer ever allocated is either alive or was freed, once. */
    ghost predicate FreedOnce()
      reads this
    {
      && (forall b :: b in freed <==> 0 < b < next && b !in refs)
      && (forall i, j :: 0 <= i < j < |freed| ==> freed[i] != freed[j])
    }

    ghost predicate Valid()
      reads this
    {
      next > 0 && Conserved() && FreedOnce()
    }

    method HalRelease(b: nat)
      requires b in refs && refs[b] > 0 && b !in freed
      modifies this`refs, this`freed
      ensures refs == if old(refs)[b] == 1 then old(refs) - {b} else old(refs)[b := old(refs)[b] - 1]
      ensures freed == if old(refs)[b] == 1 then old(freed) + [b] else old(freed)
    {
      if refs[b] == 1 {
        refs, freed := refs - {b}, freed + [b];
      } else {
        refs := refs[b := refs[b] - 1];
      }
    }

    /** `length` is the byte length the HAL reports, `None` if it cannot allocate. */
    method AcquireReservation(size: nat, length: Option<nat>) returns (status: Status, r: Reservation)
      requires Valid()
      modifies this
      ensures Valid() && held == old(held) && freed == old(freed) && signals == old(signals)
      ensures status == if size == 0 then InvalidArgument else if length.None? then HalError else Ok
      ensures next == old(next) + if status == Ok then 1 else 0
      ensures status != Ok ==> reserved == old(reserved) && refs == old(refs) && r.block == 0
      ensures status == Ok ==> r == Reservation(length.value, old(next)) && r.block !in old(refs) && r.block !in old(freed)
                               && reserved == old(reserved) + {r.block} && refs == old(refs)[r.block := 1]
    {
      if size == 0 {
        return InvalidArgument, Reservation(0, 0);
      }
      if length.None? {
        return HalError, Reservation(0, 0);
      }
      r := Reservation(length.value, next);
      assert Held(next) == 0;
      refs, reserved, next := refs[next := 1], reserved + {next}, next + 1;
      status := Ok;
    }

    /** A legal caller releases an empty reservation or one it still owns. */
    method ReleaseReservation(r: Reservation)
      requires Valid() && (r.block == 0 || r.block in reserved)
      modifies this
      ensures Valid() && held == old(held) && reserved == old(reserved) - {r.block} && next == old(next)
      ensures signals == old(signals) + if r.block == 0 then 0 else 1
      ensures forall b :: b in refs <==> b in old(refs) && (b != r.block || Held(b) > 0)
      ensures freed == if r.block != 0 && Held(r.block) == 0 then old(freed) + [r.block] else old(freed)
    {
      if r.block != 0 {
        HalRelease(r.block);
        signals := signals + 1;
      }
      reserved := reserved - {r.block};
    }

    predicate ParamsMatch(p: Params) {
      && p.kind == params.kind && p.access == params.access && p.usage == params.usage
      && p.affinity == params.affinity && p.alignment == params.alignment
    }

    /** The reservation's own reference becomes the caller's. */
    method TransferReservation(b: nat)
      requires Valid() && b in reserved
      modifies this`reserved, this`held
      ensures Valid() && reserved == old(reserved) - {b} && held == old(held)[b := old(Held(b)) + 1]
    {
      reserved := reserved - {b};
      held := held[b := (if b in held then held[b] else 0) + 1];
    }

    /** The caller gets a reference beside the reservation's. */
    method RetainReserved(b: nat)
      requires Valid() && b in reserved
      modifies this`refs, this`held
      ensures Valid() && refs == old(refs)[b := old(refs)[b] + 1] && held == old(held)[b := old(Held(b)) + 1]
    {
      refs := refs[b := refs[b] + 1];
      held := held[b := (if b in held then held[b] else 0) + 1];
    }

    /** Hands out a buffer reference: the reservation's own if it is transferred, else a new one. */
    method MaterializeReservation(p: Params, r: Reservation, transfer: bool) returns (status: Status, buffer: nat)
      requires Valid() && (r.block == 0 || r.block in reserved)
      modifies this
      ensures Valid() && freed == old(freed) && next == old(next) && signals == old(signals)
      ensures status == if p != params || r.block == 0 then InvalidArgument else Ok
      ensures status != Ok ==> buffer == 0 && refs == old(refs) && reserved == old(reserved) && held == old(held)
      ensures status == Ok ==> buffer == r.block && held == old(held)[buffer := old(Held(buffer)) + 1]
      ensures status == Ok ==> reserved == (if transfer then old(reserved) - {buffer} else old(reserved))
      ensures status == Ok ==> refs == (if transfer then old(refs) else old(refs)[buffer := old(refs)[buffer] + 1])
    {
      if !ParamsMatch(p) {
        return InvalidArgument, 0;
      }
      if r.block == 0 {
        return InvalidArgument, 0;
      }
      buffer := r.block;
      if transfer {
        TransferReservation(buffer);
      } else {
        RetainReserved(buffer);
      }
      status := Ok;
    }

    /** A client that holds a materialized reference takes another. */
    method RetainBuffer(b: nat)
      requires Valid() && b in held && held[b] > 0
      modifies this
      ensures Valid() && reserved == old(reserved) && freed == old(freed) && next == old(next)
      ensures held == old(held)[b := old(held)[b] + 1] && refs == old(refs)[b := old(refs)[b] + 1] && signals == old(signals)
    {
      refs := refs[b := refs[b] + 1];
      held := held[b := held[b] + 1];
    }

    /** A client gives back a materialized reference. */
    method ReleaseBuffer(b: nat)
      requires Valid() && b in held && held[b] > 0
      modifies this
      ensures Valid() && reserved == old(reserved) && held == old(held)[b := old(held)[b] - 1] && next == old(next)
      ensures freed == if b !in reserved && held[b] == 0 then old(freed) + [b] else old(freed)
      ensures signals == old(signals)
    {
      HalRelease(b);
      held := held[b := held[b] - 1];
    }

    /** One call; an illegal one is skipped. */
    method Perform(c: Call)
      requires Valid()
      modifies this
      ensures Valid() && Holdings(reserved, held, next) == After(params, old(Holdings(reserved, held, next)), c)
    {
      match c {
        case Acquire(size, length) =>
          var _, _ := AcquireReservation(size, length);
        case Materialize(p, r, transfer) =>
          if r.block == 0 || r.block in reserved {
            var _, _ := MaterializeReservation(p, r, transfer);
          }
        case Release(r) =>
          if r.block == 0 || r.block in reserved {
            ReleaseReservation(r);
          }
        case _ => PerformClient(c);
      }
    }

    method PerformClient(c: Call)
      requires Valid() && (c.Share? || c.Drop?)
      modifies this
      ensures Valid() && Holdings(reserved, held, next) == After(params, old(Holdings(reserved, held, next)), c)
    {
      if c.b in held && held[c.b] > 0 {
        if c.Share? {
          RetainBuffer(c.b);
        } else {
          ReleaseBuffer(c.b);
        }
      }
    }
  }

  datatype Call =
    | Acquire(size: nat, length: Option<nat>)
    | Materialize(p: Params, r: Reservation, transfer: bool)
    | Release(r: Reservation)
    | Share(b: nat) | Drop(b: nat)

  /** What clients hold: open reservations, references per buffer, and the next block. */
  datatype Holdings = Holdings(reserved: set<nat>, held: map<nat, nat>, next: nat)

  function Plus(held: map<nat, nat>, b: nat): map<nat, nat> {
    held[b := (if b in held then held[b] else 0) + 1]
  }

  /** What one call gives or takes. */
  function After(params: Params, h: Holdings, c: Call): Holdings {
    match c
    case Acquire(size, length) =>
      if size > 0 && length.Some? then Holdings(h.reserved + {h.next}, h.held, h.next + 1) else h
    case Materialize(p, r, transfer) =>
      if p != params || r.block == 0 || r.block !in h.reserved then h
      else Holdings(if transfer then h.reserved - {r.block} else h.reserved, Plus(h.held, r.block), h.next)
    case Release(r) => if r.block == 0 || r.block in h.reserved then h.(reserved := h.reserved - {r.block}) else h
    case Share(b) => if b in h.held && h.held[b] > 0 then h.(held := Plus(h.held, b)) else h
    case Drop(b) => if b in h.held && h.held[b] > 0 then h.(held := h.held[b := h.held[b] - 1]) else h
  }

  function AfterAll(params: Params, calls: seq<Call>, n: nat): Holdings
    requires n <= |calls|
  {
    if n == 0 then Holdings({}, map[], 1) else After(params, AfterAll(params, calls, n - 1), calls[n - 1])
  }

  /** Any sequence of calls, the illegal ones skipped: clients hold what the calls gave them, counts are conserved throughout, and once no
      reservation and no reference is left, every buffer ever allocated has been freed exactly once. */
  method Replay(params: Params, calls: seq<Call>) returns (pool: ExactPool)
    ensures pool.Valid()
    ensures pool.reserved == {} && (forall b :: b in pool.held ==> pool.held[b] == 0) ==>
              pool.refs == map[] && (forall b: nat :: 0 < b < pool.next <==> b in pool.freed)
    ensures Holdings(pool.reserved, pool.held, pool.next) == AfterAll(params, calls, |calls|)
  {
    pool := new ExactPool(params);
    for i := 0 to |calls|
      invariant pool.Valid() && fresh(pool) && pool.params == params
      invariant Holdings(pool.reserved, pool.held, pool.next) == AfterAll(params, calls, i)
    {
      pool.Perform(calls[i]);
    }
    assert pool.reserved == {} && (forall b :: b in pool.held ==> pool.held[b] == 0) ==> forall b :: b !in pool.refs;
  }
}
