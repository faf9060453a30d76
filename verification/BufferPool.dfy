/**
The buffer pool with its intrusive free list, and the move-only handles that lease from it.

`Pool` keeps the links in place, one per slot, as the source does; slots are named by index
and `NULL` stands for the null pointer. `free` is the list the links spell, head first.
*/
module BufferPool {

  import opened Results

  const NULL: int := -1

  datatype Outcome = Exhausted | ConstructionFailed | Leased(slot: nat)

  /** The links from `head` spell exactly the list `free`. */
  ghost predicate Spells(head: int, next: seq<int>, free: seq<nat>) {
    && head == (if free == [] then NULL else free[0])
    && (forall i :: 0 <= i < |free| ==> free[i] < |next|)
    && (forall i :: 0 <= i < |free| ==> next[free[i]] == Successor(free, i))
  }

  /** The head and the links of a pool. */
  datatype Links = Links(head: int, next: seq<int>)

  /** Unlinking the first free slot. */
  function Unlink(l: Links): Links {
    if 0 <= l.head < |l.next| then Links(l.next[l.head], l.next[l.head := NULL]) else l
  }

  /** Linking a slot in at the head. */
  function LinkIn(l: Links, slot: nat): Links {
    if slot < |l.next| then Links(slot, l.next[slot := l.head]) else l
  }

  function Successor(list: seq<nat>, i: nat): int
    requires i < |list|
  {
    if i + 1 < |list| then list[i + 1] else NULL
  }

  ghost predicate Distinct(list: seq<nat>) {
    forall i, j :: 0 <= i < j < |list| ==> list[i] != list[j]
  }

  function Below(n: nat): (r: set<nat>)
    ensures forall x: nat :: x in r <==> x < n
    ensures |r| == n
  {
    if n == 0 then {} else Below(n - 1) + {n - 1}
  }

  function Elements(list: seq<nat>): (r: set<nat>)
    ensures forall x :: x in r <==> x in list
  {
    set x | x in list
  }

  lemma {:induction false} DistinctSize(list: seq<nat>)
    requires Distinct(list)
    ensures |Elements(list)| == |list|
  {
    if list != [] {
      var n := |list| - 1;
      DistinctSize(list[..n]);
      assert Elements(list) == Elements(list[..n]) + {list[n]};
    }
  }

  /** The slots a pool with this free list has leased. */
  function LeasedSlots(free: seq<nat>, capacity: nat): set<nat> {
    Below(capacity) - Elements(free)
  }

  /** A free list of distinct slots leaves exactly the rest of the pool leased. */
  lemma LeasedSize(free: seq<nat>, capacity: nat)
    requires Distinct(free) && forall i :: 0 <= i < |free| ==> free[i] < capacity
    ensures |LeasedSlots(free, capacity)| + |free| == capacity
  {
    DistinctSize(free);
    assert Below(capacity) == LeasedSlots(free, capacity) + Elements(free);
  }

  /** Every slot linked to its successor, the last to null. */
  function Chain(n: nat): Links {
    Links(if n == 0 then NULL else 0, seq(n, i requires 0 <= i < n => if i + 1 < n then i + 1 else NULL))
  }

  function Counting(n: nat): seq<nat> {
    seq(n, i => i)
  }

  lemma ChainSpells(n: nat)
    ensures Spells(Chain(n).head, Chain(n).next, Counting(n)) && Distinct(Counting(n))
    ensures forall j: nat :: j < n ==> j in Counting(n)
  {
    forall j: nat | j < n
      ensures j in Counting(n)
    {
      assert Counting(n)[j] == j;
    }
  }

  lemma SpellsPop(head: int, next: seq<int>, free: seq<nat>)
    requires Spells(head, next, free) && Distinct(free) && free != []
    ensures Spells(next[free[0]], next[free[0] := NULL], free[1..])
  {
    var next' := next[free[0] := NULL];
    assert next[free[0]] == Successor(free, 0);
    forall i | 0 <= i < |free[1..]| ensures next'[free[1..][i]] == Successor(free[1..], i) {
      assert free[1..][i] == free[i + 1];
      assert next[free[i + 1]] == Successor(free, i + 1);
    }
  }

  lemma SpellsPush(head: int, next: seq<int>, free: seq<nat>, slot: nat)
    requires Spells(head, next, free) && slot < |next| && slot !in free
    ensures Spells(slot, next[slot := head], [slot] + free)
  {
    var next', free' := next[slot := head], [slot] + free;
    forall i | 0 <= i < |free'| ensures next'[free'[i]] == Successor(free', i) {
      if i > 0 {
        assert free'[i] == free[i - 1];
        assert next[free[i - 1]] == Successor(free, i - 1);
      }
    }
  }

  /** Links every slot to its successor, the last to null. */
  method LinkAll(next: array<int>)
    requires next.Length > 0
    modifies next
    ensures next[..] == Chain(next.Length).next
  {
    var i := 0;
    while i + 1 < next.Length
      invariant 0 <= i < next.Length
      invariant forall j :: 0 <= j < i ==> next[j] == j + 1
    {
      next[i] := i + 1;
      i := i + 1;
    }
    next[next.Length - 1] := NULL;
  }

  class Pool {
    const capacity: nat
    const next: array<int>
    const live: array<bool>      // whether a buffer object is alive in the slot's storage
    var head: int
    var leaseCount: nat
    ghost var free: seq<nat>

    /** The free list is acyclic and holds exactly the slots that are not leased. */
    ghost predicate Valid()
      reads this, next, live
    {
      && capacity > 0
      && next.Length == capacity && live.Length == capacity
      && Spells(head, next[..], free)
      && Distinct(free)
      && (forall j :: 0 <= j < capacity ==> (live[j] <==> j !in free))
      && |free| + leaseCount == capacity
    }

    ghost predicate IsLeased(slot: nat)
      reads this, next, live
      requires Valid()
    {
      slot < capacity && slot !in free
    }

    /** Every slot free, in order. */
    constructor (n: nat)
      requires n > 0
      ensures Valid() && capacity == n && leaseCount == 0
      ensures free == Counting(n) && Links(head, next[..]) == Chain(n)
      ensures fresh(next) && fresh(live)
    {
      capacity := n;
      next := new int[n](_ => NULL);
      live := new bool[n](_ => false);
      head := 0;
      leaseCount := 0;
      free := Counting(n);
      new;
      LinkAll(next);
      ChainSpells(n);
    }

    /**
    Leases the first free slot. Exhaustion is reported exactly when every slot is leased; a
    failing constructor leaves the list, the links and the count exactly as they were.
    */
    method TryAcquire(constructs: bool) returns (r: Outcome)
      requires Valid()
      modifies this, next, live
      ensures Valid()
      ensures r.Exhausted? <==> old(leaseCount) == capacity
      ensures r.Exhausted? <==> forall j: nat :: j < capacity ==> old(IsLeased(j))
      ensures !r.Leased? ==> free == old(free) && head == old(head) && leaseCount == old(leaseCount)
      ensures !r.Leased? ==> next[..] == old(next[..]) && live[..] == old(live[..])
      ensures r.ConstructionFailed? ==> !constructs
      ensures r.Leased? ==>
                && constructs && old(free) != [] && r.slot == old(free)[0] == old(head) && free == old(free)[1..]
                && Links(head, next[..]) == Unlink(old(Links(head, next[..])))
                && !old(IsLeased(r.slot)) && IsLeased(r.slot) && leaseCount == old(leaseCount) + 1
    {
      if head == NULL {
        return Exhausted;
      }
      assert old(!IsLeased(free[0]));
      SpellsPop(head, next[..], free);
      var slot := head;
      head := next[slot];
      next[slot] := NULL;
      if !constructs {
        next[slot] := head;
        head := slot;
        assert next[..] == old(next[..]);
        return ConstructionFailed;
      }
      live[slot] := true;
      leaseCount := leaseCount + 1;
      free := free[1..];
      assert next[..] == old(next[..])[slot := NULL];
      return Leased(slot);
    }

    /** Returns a leased slot to the head of the list. */
    method Release(slot: nat)
      requires Valid() && IsLeased(slot)
      modifies this, next, live
      ensures Valid()
      ensures free == [slot] + old(free) && leaseCount == old(leaseCount) - 1
      ensures Links(head, next[..]) == LinkIn(old(Links(head, next[..])), slot)
    {
      assert leaseCount > 0 by {
        LeasedSize(free, capacity);
        assert slot in LeasedSlots(free, capacity);
      }
      SpellsPush(head, next[..], free, slot);
      assert Distinct([slot] + free);
      live[slot] := false;
      next[slot] := head;
      head := slot;
      free := [slot] + free;
      assert next[..] == old(next[..])[slot := old(head)];
      leaseCount := leaseCount - 1;
    }
  }

  /** A move-only lease: the buffer, the pool it came from and the function that returns it. */
  class Handle {
    var buffer: int
    var pool: Pool?
    var releaseBound: bool

    /** The three fields are set together and cleared together. */
    ghost predicate WellFormed()
      reads this
    {
      (buffer == NULL && pool == null && !releaseBound) || (buffer >= 0 && pool != null && releaseBound)
    }

    /** The slot is really leased from the pool. */
    ghost predicate Holding()
      reads this, if pool == null then {} else {pool, pool.next, pool.live}
    {
      WellFormed() && pool != null && pool.Valid() && pool.IsLeased(buffer)
    }

    predicate IsValid()
      reads this
    {
      buffer != NULL && pool != null && releaseBound
    }

    constructor Empty()
      ensures WellFormed() && !IsValid()
    {
      buffer, pool, releaseBound := NULL, null, false;
    }

    constructor Adopt(slot: nat, owner: Pool)
      ensures WellFormed() && IsValid() && buffer == slot && pool == owner
    {
      buffer, pool, releaseBound := slot, owner, true;
    }

    constructor MoveFrom(other: Handle)
      requires other.WellFormed()
      modifies other
      ensures WellFormed() && buffer == old(other.buffer) && pool == old(other.pool)
      ensures other.WellFormed() && !other.IsValid()
    {
      buffer, pool, releaseBound := NULL, null, false;
      new;
      TakeOver(other);
    }

    /** Returns the buffer if one is held; a second reset, or a reset after a move, touches no pool. */
    method Reset()
      requires WellFormed() && (IsValid() ==> Holding())
      modifies this, if pool == null then {} else {pool, pool.next, pool.live}
      ensures WellFormed() && !IsValid()
      ensures old(IsValid()) ==> old(pool).Valid() && old(pool).free == [old(buffer)] + old(pool.free)
    {
      if IsValid() {
        pool.Release(buffer);
      }
      buffer, pool, releaseBound := NULL, null, false;
    }

    /** The exchange both moves end with: the fields change hands and the source is left empty. */
    method TakeOver(other: Handle)
      requires this != other && other.WellFormed()
      modifies this, other
      ensures buffer == old(other.buffer) && pool == old(other.pool) && releaseBound == old(other.releaseBound)
      ensures WellFormed() && other.WellFormed() && !other.IsValid()
    {
      buffer, pool, releaseBound := other.buffer, other.pool, other.releaseBound;
      other.buffer, other.pool, other.releaseBound := NULL, null, false;
    }

    /** Move assignment: the lease held so far is returned, then the other one is taken over; self-assignment does nothing. */
    method Assign(other: Handle)
      requires WellFormed() && other.WellFormed() && (IsValid() ==> Holding())
      modifies this, other, if pool == null then {} else {pool, pool.next, pool.live}
      ensures WellFormed() && buffer == old(other.buffer) && pool == old(other.pool)
      ensures this != other ==> other.WellFormed() && !other.IsValid()
      ensures this != other && old(IsValid()) ==>
                old(pool).Valid() && old(pool).free == [old(buffer)] + old(pool.free)
      ensures this == other && old(IsValid()) ==> old(pool).Valid() && pool.free == old(pool.free)
    {
      if this != other {
        Reset();
        TakeOver(other);
      }
    }
  }

  // ---------------------------------------------------------------- leases over whole runs

  /** One lease: which pool, which slot, and the number of the acquisition that created it. */
  datatype Lease = Lease(pool: nat, slot: nat, id: nat)

  /** Any number of pools and handle variables. `free`, `issued` and `returned` are history. */
  datatype World = World(
    capacity: seq<nat>,
    links: seq<Links>,
    free: seq<seq<nat>>,
    handles: map<nat, Option<Lease>>,
    issued: nat,
    returned: seq<nat>)

  datatype Step =
    | Acquire(p: nat, h: nat, constructs: bool)
    | Default(h: nat)
    | MoveConstruct(h: nat, src: nat)
    | MoveAssign(h: nat, src: nat)
    | ResetHandle(h: nat)
    | Destroy(h: nat)

  predicate Enabled(w: World, step: Step) {
    match step
    case Acquire(p, h, _) => p < |w.free| && h !in w.handles
    case Default(h) => h !in w.handles
    case MoveConstruct(h, src) => h !in w.handles && src in w.handles
    case MoveAssign(h, src) => h in w.handles && src in w.handles
    case ResetHandle(h) => h in w.handles
    case Destroy(h) => h in w.handles
  }

  function LeaseOf(w: World, h: nat): Option<Lease> {
    if h in w.handles then w.handles[h] else None
  }

  /** `reset`: the slot goes back to the head of its pool's list. */
  function GiveBack(w: World, h: nat): World {
    if LeaseOf(w, h).None? || LeaseOf(w, h).value.pool >= |w.free| then w
    else
      var lease := LeaseOf(w, h).value;
      w.(free := w.free[lease.pool := [lease.slot] + w.free[lease.pool]],
         links := if lease.pool < |w.links| then w.links[lease.pool := LinkIn(w.links[lease.pool], lease.slot)] else w.links,
         handles := w.handles[h := None],
         returned := w.returned + [lease.id])
  }

  /** The exchange of a move: `h` takes over what `src` holds. */
  function Transfer(w: World, h: nat, src: nat): World {
    w.(handles := w.handles[h := LeaseOf(w, src)][src := None])
  }

  /** `try_acquire` into a new handle; an exhausted pool or a failing constructor changes nothing. */
  function Take(w: World, p: nat, h: nat, constructs: bool): World
    requires p < |w.free|
  {
    if w.free[p] == [] || !constructs then w
    else w.(free := w.free[p := w.free[p][1..]],
            links := if p < |w.links| then w.links[p := Unlink(w.links[p])] else w.links,
            handles := w.handles[h := Some(Lease(p, w.free[p][0], w.issued))],
            issued := w.issued + 1)
  }

  function Apply(w: World, step: Step): World
    requires Enabled(w, step)
  {
    match step
    case Acquire(p, h, constructs) => Take(w, p, h, constructs)
    case Default(h) => w.(handles := w.handles[h := None])
    case MoveConstruct(h, src) => Transfer(w, h, src)
    case MoveAssign(h, src) => if h == src then w else Transfer(GiveBack(w, h), h, src)
    case ResetHandle(h) => GiveBack(w, h)
    case Destroy(h) => var w' := GiveBack(w, h); w'.(handles := w'.handles - {h})
  }

  ghost predicate PoolsSound(w: World) {
    && |w.free| == |w.capacity|
    && forall p :: 0 <= p < |w.free| ==> Distinct(w.free[p]) && forall i :: 0 <= i < |w.free[p]| ==> w.free[p][i] < w.capacity[p]
  }

  ghost predicate LeaseSound(w: World, lease: Lease) {
    && lease.pool < |w.free| == |w.capacity|
    && lease.slot < w.capacity[lease.pool] && lease.slot !in w.free[lease.pool]
    && lease.id < w.issued && lease.id !in w.returned
  }

  ghost predicate LeasesDisjoint(a: Lease, b: Lease) {
    a.id != b.id && (a.pool == b.pool ==> a.slot != b.slot)
  }

  /** Slot `slot` of pool `p` is held by some handle. */
  ghost predicate SlotHeld(w: World, p: nat, slot: nat) {
    exists h :: LeaseOf(w, h).Some? && LeaseOf(w, h).value.pool == p && LeaseOf(w, h).value.slot == slot
  }

  ghost predicate IdHeld(w: World, id: nat) {
    exists h :: LeaseOf(w, h).Some? && LeaseOf(w, h).value.id == id
  }

  ghost predicate Inv(w: World) {
    && PoolsSound(w)
    && (forall h :: LeaseOf(w, h).Some? ==> LeaseSound(w, LeaseOf(w, h).value))
    && (forall h, g :: h != g && LeaseOf(w, h).Some? && LeaseOf(w, g).Some? ==>
                       LeasesDisjoint(LeaseOf(w, h).value, LeaseOf(w, g).value))
    && (forall p, slot: nat :: 0 <= p < |w.free| && slot < w.capacity[p] && slot !in w.free[p] ==> SlotHeld(w, p, slot))
    && Distinct(w.returned)
    && (forall id :: id in w.returned ==> id < w.issued)
    && (forall id: nat :: id < w.issued && id !in w.returned ==> IdHeld(w, id))
  }

  lemma DistinctExtend(list: seq<nat>, x: nat)
    requires Distinct(list) && x !in list
    ensures Distinct([x] + list) && Distinct(list + [x])
  {
  }

  lemma GiveBackSlots(w: World, h: nat)
    requires Inv(w) && LeaseOf(w, h).Some?
    ensures var w' := GiveBack(w, h);
            forall p, slot: nat :: 0 <= p < |w'.free| && slot < w'.capacity[p] && slot !in w'.free[p] ==>
                                   SlotHeld(w', p, slot)
  {
    var lease, w' := LeaseOf(w, h).value, GiveBack(w, h);
    forall p, slot: nat | 0 <= p < |w'.free| && slot < w'.capacity[p] && slot !in w'.free[p]
      ensures SlotHeld(w', p, slot)
    {
      assert SlotHeld(w, p, slot);
      var g :| LeaseOf(w, g).Some? && LeaseOf(w, g).value.pool == p && LeaseOf(w, g).value.slot == slot;
      assert LeaseOf(w', g) == LeaseOf(w, g);
    }
  }

  lemma GiveBackIds(w: World, h: nat)
    requires Inv(w) && LeaseOf(w, h).Some?
    ensures var w' := GiveBack(w, h);
            forall id: nat :: id < w'.issued && id !in w'.returned ==> IdHeld(w', id)
  {
    var lease, w' := LeaseOf(w, h).value, GiveBack(w, h);
    forall id: nat | id < w'.issued && id !in w'.returned ensures IdHeld(w', id) {
      assert id !in w.returned && id != lease.id;
      assert IdHeld(w, id);
      var g :| LeaseOf(w, g).Some? && LeaseOf(w, g).value.id == id;
      assert LeaseOf(w', g) == LeaseOf(w, g);
    }
  }

  lemma GiveBackLeases(w: World, h: nat)
    requires Inv(w) && LeaseOf(w, h).Some?
    ensures var w' := GiveBack(w, h);
            && (forall g :: LeaseOf(w', g) == if g == h then None else LeaseOf(w, g))
            && (forall g :: LeaseOf(w', g).Some? ==> LeaseSound(w', LeaseOf(w', g).value))
  {
    var lease, w' := LeaseOf(w, h).value, GiveBack(w, h);
    assert LeaseSound(w, lease);
    forall g | LeaseOf(w', g).Some?
      ensures LeaseSound(w', LeaseOf(w', g).value)
    {
      assert LeaseOf(w', g) == LeaseOf(w, g) && LeaseSound(w, LeaseOf(w, g).value);
      assert LeasesDisjoint(LeaseOf(w, g).value, lease);
    }
  }

  lemma GiveBackPools(w: World, h: nat)
    requires Inv(w) && LeaseOf(w, h).Some?
    ensures PoolsSound(GiveBack(w, h)) && Distinct(GiveBack(w, h).returned)
    ensures forall id :: id in GiveBack(w, h).returned ==> id < w.issued
  {
    var lease := LeaseOf(w, h).value;
    assert LeaseSound(w, lease);
    DistinctExtend(w.free[lease.pool], lease.slot);
    DistinctExtend(w.returned, lease.id);
  }

  lemma GiveBackInv(w: World, h: nat)
    requires Inv(w)
    ensures Inv(GiveBack(w, h)) && LeaseOf(GiveBack(w, h), h) == None
    ensures forall g :: g != h ==> LeaseOf(GiveBack(w, h), g) == LeaseOf(w, g)
  {
    if LeaseOf(w, h).Some? {
      GiveBackSlots(w, h);
      GiveBackIds(w, h);
      GiveBackLeases(w, h);
      GiveBackPools(w, h);
    }
  }

  lemma TransferInv(w: World, h: nat, src: nat)
    requires Inv(w) && h != src && LeaseOf(w, h) == None
    ensures Inv(Transfer(w, h, src))
  {
    var w' := Transfer(w, h, src);
    assert forall g :: LeaseOf(w', g) == if g == h then LeaseOf(w, src) else if g == src then None else LeaseOf(w, g);
    forall p, slot: nat | 0 <= p < |w'.free| && slot < w'.capacity[p] && slot !in w'.free[p]
      ensures SlotHeld(w', p, slot)
    {
      assert SlotHeld(w, p, slot);
      var g :| LeaseOf(w, g).Some? && LeaseOf(w, g).value.pool == p && LeaseOf(w, g).value.slot == slot;
      assert LeaseOf(w', if g == src then h else g) == LeaseOf(w, g);
    }
    forall id: nat | id < w'.issued && id !in w'.returned ensures IdHeld(w', id) {
      assert IdHeld(w, id);
      var g :| LeaseOf(w, g).Some? && LeaseOf(w, g).value.id == id;
      assert LeaseOf(w', if g == src then h else g) == LeaseOf(w, g);
    }
  }

  /** Creating or dropping an empty handle concerns no lease. */
  lemma SameLeasesInv(w: World, w': World)
    requires Inv(w) && w' == w.(handles := w'.handles) && forall g :: LeaseOf(w', g) == LeaseOf(w, g)
    ensures Inv(w')
  {
    forall p, slot: nat | 0 <= p < |w'.free| && slot < w'.capacity[p] && slot !in w'.free[p]
      ensures SlotHeld(w', p, slot)
    {
      assert SlotHeld(w, p, slot);
      var g :| LeaseOf(w, g).Some? && LeaseOf(w, g).value.pool == p && LeaseOf(w, g).value.slot == slot;
      assert LeaseOf(w', g) == LeaseOf(w, g);
    }
    forall id: nat | id < w'.issued && id !in w'.returned ensures IdHeld(w', id) {
      assert IdHeld(w, id);
      var g :| LeaseOf(w, g).Some? && LeaseOf(w, g).value.id == id;
      assert LeaseOf(w', g) == LeaseOf(w, g);
    }
  }

  lemma TakeInv(w: World, p: nat, h: nat, constructs: bool)
    requires Inv(w) && p < |w.free| && LeaseOf(w, h) == None
    ensures Inv(Take(w, p, h, constructs))
  {
    var w' := Take(w, p, h, constructs);
    if w.free[p] != [] && constructs {
      var lease := Lease(p, w.free[p][0], w.issued);
      assert w.free[p][0] in w.free[p];
      assert forall g :: LeaseOf(w', g) == if g == h then Some(lease) else LeaseOf(w, g);
      forall q, slot: nat | 0 <= q < |w'.free| && slot < w'.capacity[q] && slot !in w'.free[q]
        ensures SlotHeld(w', q, slot)
      {
        if q == p && slot == lease.slot {
          assert LeaseOf(w', h) == Some(lease);
        } else {
          assert SlotHeld(w, q, slot);
          var g :| LeaseOf(w, g).Some? && LeaseOf(w, g).value.pool == q && LeaseOf(w, g).value.slot == slot;
          assert LeaseOf(w', g) == LeaseOf(w, g);
        }
      }
      forall id: nat | id < w'.issued && id !in w'.returned ensures IdHeld(w', id) {
        if id == w.issued {
          assert LeaseOf(w', h).value.id == id;
        } else {
          assert IdHeld(w, id);
          var g :| LeaseOf(w, g).Some? && LeaseOf(w, g).value.id == id;
          assert LeaseOf(w', g) == LeaseOf(w, g);
        }
      }
    }
  }

  lemma StepInv(w: World, step: Step)
    requires Inv(w) && Enabled(w, step)
    ensures Inv(Apply(w, step))
  {
    match step
    case Acquire(p, h, constructs) => TakeInv(w, p, h, constructs);
    case Default(h) => SameLeasesInv(w, Apply(w, step));
    case MoveConstruct(h, src) => TransferInv(w, h, src);
    case MoveAssign(h, src) =>
      if h != src {
        GiveBackInv(w, h);
        TransferInv(GiveBack(w, h), h, src);
      }
    case ResetHandle(h) => GiveBackInv(w, h);
    case Destroy(h) =>
      GiveBackInv(w, h);
      SameLeasesInv(GiveBack(w, h), Apply(w, step));
  }

  /** Fresh pools of the given sizes and no handles. */
  function Fresh(capacity: seq<nat>): World {
    World(capacity, seq(|capacity|, p requires 0 <= p < |capacity| => Chain(capacity[p])),
          seq(|capacity|, p requires 0 <= p < |capacity| => Counting(capacity[p])), map[], 0, [])
  }

  lemma FreshInv(capacity: seq<nat>)
    ensures Inv(Fresh(capacity)) && LinksSound(Fresh(capacity))
  {
    var w := Fresh(capacity);
    forall p | 0 <= p < |capacity|
      ensures Spells(w.links[p].head, w.links[p].next, w.free[p]) && Distinct(w.free[p])
      ensures forall slot: nat :: slot < capacity[p] ==> slot in w.free[p]
    {
      ChainSpells(capacity[p]);
    }
  }

  ghost predicate Legal(w: World, steps: seq<Step>)
    decreases |steps|
  {
    steps == [] || (Enabled(w, steps[0]) && Legal(Apply(w, steps[0]), steps[1..]))
  }

  ghost function Final(w: World, steps: seq<Step>): World
    requires Legal(w, steps)
    decreases |steps|
  {
    if steps == [] then w else Final(Apply(w, steps[0]), steps[1..])
  }

  lemma {:induction false} RunInv(w: World, steps: seq<Step>)
    requires Inv(w) && Legal(w, steps)
    ensures Inv(Final(w, steps))
    decreases |steps|
  {
    if steps != [] {
      StepInv(w, steps[0]);
      RunInv(Apply(w, steps[0]), steps[1..]);
    }
  }

  /** The links of every pool spell its free list. */
  ghost predicate LinksSound(w: World) {
    && |w.links| == |w.free| == |w.capacity|
    && forall p :: 0 <= p < |w.links| ==>
         |w.links[p].next| == w.capacity[p] && Spells(w.links[p].head, w.links[p].next, w.free[p])
  }

  lemma LinksStep(w: World, step: Step)
    requires Inv(w) && LinksSound(w) && Enabled(w, step)
    ensures LinksSound(Apply(w, step))
  {
    match step
    case Acquire(p, h, constructs) =>
      if w.free[p] != [] {
        SpellsPop(w.links[p].head, w.links[p].next, w.free[p]);
      }
    case Default(h) =>
    case MoveConstruct(h, src) =>
    case MoveAssign(h, src) => GiveBackLinks(w, h);
    case ResetHandle(h) => GiveBackLinks(w, h);
    case Destroy(h) => GiveBackLinks(w, h);
  }

  lemma GiveBackLinks(w: World, h: nat)
    requires Inv(w) && LinksSound(w)
    ensures LinksSound(GiveBack(w, h))
  {
    if LeaseOf(w, h).Some? {
      var lease := LeaseOf(w, h).value;
      assert LeaseSound(w, lease);
      SpellsPush(w.links[lease.pool].head, w.links[lease.pool].next, w.free[lease.pool], lease.slot);
    }
  }

  lemma {:induction false} LinksRun(w: World, steps: seq<Step>)
    requires Inv(w) && LinksSound(w) && Legal(w, steps)
    ensures LinksSound(Final(w, steps))
    decreases |steps|
  {
    if steps != [] {
      StepInv(w, steps[0]);
      LinksStep(w, steps[0]);
      LinksRun(Apply(w, steps[0]), steps[1..]);
    }
  }

  /**
  Over every sequence of acquisitions (failing constructors included), moves, assignments,
  resets and destructions, on any number of pools: the links of each pool, followed from its head,
  spell an acyclic list of exactly the slots no handle leases, free and leased slots add up to the
  capacity, and no slot is leased twice.
  */
  lemma LeasesAreExact(capacity: seq<nat>, steps: seq<Step>, p: nat)
    requires Legal(Fresh(capacity), steps) && p < |Final(Fresh(capacity), steps).free|
    ensures var w := Final(Fresh(capacity), steps);
            && |w.capacity| == |w.free| == |w.links|
            && Spells(w.links[p].head, w.links[p].next, w.free[p]) && Distinct(w.free[p])
            && |LeasedSlots(w.free[p], w.capacity[p])| + |w.free[p]| == w.capacity[p]
            && (forall slot: nat :: slot < w.capacity[p] ==> (slot !in w.free[p] <==> SlotHeld(w, p, slot)))
            && (forall h, g :: h != g && LeaseOf(w, h).Some? && LeaseOf(w, g).Some? ==>
                               LeasesDisjoint(LeaseOf(w, h).value, LeaseOf(w, g).value))
  {
    FreshInv(capacity);
    RunInv(Fresh(capacity), steps);
    LinksRun(Fresh(capacity), steps);
    var w := Final(Fresh(capacity), steps);
    LeasedSize(w.free[p], w.capacity[p]);
  }

  /** Each lease is returned exactly once: never while a handle still holds it, and by the time no handle does, all of them. */
  lemma EveryLeaseReturnsOnce(capacity: seq<nat>, steps: seq<Step>)
    requires Legal(Fresh(capacity), steps)
    ensures var w := Final(Fresh(capacity), steps);
            && Distinct(w.returned)
            && (forall id: nat :: id < w.issued ==> (id in w.returned <==> !IdHeld(w, id)))
            && ((forall h :: LeaseOf(w, h) == None) ==>
                  && (forall id: nat :: id < w.issued ==> id in w.returned)
                  && |w.capacity| == |w.free|
                  && forall p :: 0 <= p < |w.free| ==> |w.free[p]| == w.capacity[p])
  {
    FreshInv(capacity);
    RunInv(Fresh(capacity), steps);
    var w := Final(Fresh(capacity), steps);
    if forall h :: LeaseOf(w, h) == None {
      forall p | 0 <= p < |w.free| ensures |w.free[p]| == w.capacity[p] {
        LeasedSize(w.free[p], w.capacity[p]);
        assert LeasedSlots(w.free[p], w.capacity[p]) == {};
      }
    }
  }
}
