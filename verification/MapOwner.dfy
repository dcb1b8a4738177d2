/**
  Who owns a mapping (io.c).  A slotted mapping lives in the file layer's table under its fd and is wrapped
  by an ArrayBuffer whose death unmaps it; the wrapper can outlive the mapping (an early _munmap) and the
  slot can be used again, so the wrapper carries the slot's generation.  Once-maps and anonymous maps have
  no slot.  C code maps into slots as well, without a wrapper and without a generation.

  Every mapping made gets a number of its own here, and a record of where it is, which the source does
  not have.
 */
module MapOwner {
  import opened Options

  const SLOTS: nat := 1024
  const GENS: nat := 0x40_0000_0000_0000  // generations an ident has room for: 2^64 / SLOTS
  const WORD: nat := 0x1_0000_0000_0000_0000

  /** The generation packed above the slot, in a 64-bit word. */
  function Ident(gen: nat, fd: nat): nat { gen * SLOTS % WORD + fd }

  function FdOf(ident: nat): nat { ident % SLOTS }

  function GenOf(ident: nat): nat { ident / SLOTS }

  /** Unpacking gives the slot back, and the generation as far as it fits. */
  lemma IdentParts(gen: nat, fd: nat)
    requires fd < SLOTS
    ensures FdOf(Ident(gen, fd)) == fd && GenOf(Ident(gen, fd)) == gen % GENS
  {
    var q, r := gen / GENS, gen % GENS;
    assert gen * SLOTS == q * WORD + r * SLOTS;
    assert gen * SLOTS % WORD == r * SLOTS by { Remainder(gen * SLOTS, q, r * SLOTS); }
  }

  lemma Remainder(a: nat, q: nat, r: nat)
    requires a == q * WORD + r && r < WORD
    ensures a % WORD == r
  {
  }

  /** Of two idents the later is another one: of another slot, or of a generation that still fits. */
  lemma IdentsDiffer(g: nat, f: nat, gen: nat, fd: nat)
    requires f < SLOTS && fd < SLOTS && gen < GENS && (f == fd ==> g < gen)
    ensures Ident(g, f) != Ident(gen, fd)
  {
    IdentParts(g, f);
    IdentParts(gen, fd);
  }

  datatype Region = Region(base: nat, id: nat)

  /** What the free function of a live wrapper holds. */
  datatype Wrapper = Slotted(base: nat, ident: nat) | Plain(base: nat)

  /** The slot and generation a mapping was made under, if JS made it in a slot. */
  datatype Birth = Birth(fd: nat, gen: nat)

  /** Where a mapping is: in a slot, in the hands of a wrapper without slot, or unmapped. */
  datatype Place = InSlot(fd: nat) | Held | Gone

  datatype Mapping = Mapping(birth: Option<Birth>, place: Place)

  datatype World = World(
    gens: seq<nat>,                 // JABC_MAP_GEN
    slots: seq<Option<Region>>,     // FILE_WANT_BUFS
    wrappers: map<nat, Wrapper>,    // the live wrappers, by the mapping each was made for
    pinMap: nat, pinFd: nat,        // JABC_PIN_MAP, JABC_PIN_FD
    made: seq<Mapping>,             // every mapping made
    released: seq<nat>)             // the mappings unmapped, in order

  /** How far a call gets after the kernel has mapped. */
  datatype Luck = AllWell | TooBig | NoRecord | NoBuffer

  datatype Event =
    | MapSlot(fd: nat, base: nat, luck: Luck)  // io._mmap, "rw" or "c"
    | MapPlain(base: nat, luck: Luck)          // io._mmap, "r", and io._ram
    | MapInside(fd: nat, base: nat)            // C code maps into a slot
    | UnmapInside(fd: nat)                     // and unmaps
    | Munmap(base: nat)                        // io._munmap
    | Die(id: nat)                             // a wrapper's free function

  /** The kernel maps where nothing is mapped. */
  predicate Unused(w: World, base: nat) {
    && (forall fd :: 0 <= fd < |w.slots| && w.slots[fd].Some? ==> w.slots[fd].value.base != base)
    && forall id <- w.wrappers :: w.wrappers[id].Plain? ==> w.wrappers[id].base != base
  }

  function Release(w: World, fd: nat): World
    requires fd < |w.slots| && w.slots[fd].Some?
  {
    var id := w.slots[fd].value.id;
    Dispose(w.(slots := w.slots[fd := None]), id)
  }

  /** The mapping is unmapped. */
  function Dispose(w: World, id: nat): World {
    w.(made := if id < |w.made| then w.made[id := w.made[id].(place := Gone)] else w.made,
       released := w.released + [id])
  }

  /** A mapping enters a free slot; JS takes a generation for it. */
  function Enter(w: World, fd: nat, base: nat, js: bool): World
    requires fd < |w.slots| == |w.gens|
  {
    var gen := w.gens[fd] + 1;
    var birth := if js then Some(Birth(fd, gen)) else None;
    w.(slots := w.slots[fd := Some(Region(base, |w.made|))], gens := if js then w.gens[fd := gen] else w.gens,
       made := w.made + [Mapping(birth, InSlot(fd))])
  }

  function WrapSlot(w: World, id: nat, base: nat, b: Birth): World {
    w.(wrappers := w.wrappers[id := Slotted(base, Ident(b.gen, b.fd))], pinMap := w.pinMap + 1, pinFd := w.pinFd + 1)
  }

  /** JABCPinDrop, whose decrements stop at zero. */
  function PinDrop(w: World, fd: bool): World {
    w.(pinMap := if w.pinMap > 0 then w.pinMap - 1 else 0, pinFd := if fd && w.pinFd > 0 then w.pinFd - 1 else w.pinFd)
  }

  /** io._mmap in a slot: the generation is taken once the size is found to be in bounds. */
  function DoMapSlot(w: World, fd: nat, base: nat, luck: Luck): World
    requires fd < |w.slots| == |w.gens| && w.slots[fd] == None
  {
    var t := Enter(w, fd, base, !luck.TooBig?);
    if luck.AllWell? then WrapSlot(t, |w.made|, base, Birth(fd, w.gens[fd] + 1)) else Release(t, fd)
  }

  function DoMapPlain(w: World, base: nat, luck: Luck): World {
    var id, t := |w.made|, w.(made := w.made + [Mapping(None, Held)]);
    if luck.AllWell? then t.(wrappers := w.wrappers[id := Plain(base)], pinMap := w.pinMap + 1)
    else Dispose(t, id)
  }

  function Unwrap(w: World, id: nat): World
    requires id in w.wrappers
  {
    PinDrop(w.(wrappers := w.wrappers - {id}), w.wrappers[id].Slotted?)
  }

  /** The free functions: JABCMapFree; JABCMapROFree and JABCRamFree. */
  function DoDie(w: World, id: nat): World
    requires id in w.wrappers && |w.slots| == |w.gens| == SLOTS
  {
    var r, t := w.wrappers[id], Unwrap(w, id);
    if r.Plain? then Dispose(t, id)
    else
      var fd := FdOf(r.ident);
      if w.slots[fd].Some? && w.slots[fd].value.base == r.base && GenOf(r.ident) == w.gens[fd]
      then Release(t, fd) else t
  }

  /** The first slot that holds a mapping at the base, from slot fd on. */
  function SlotOf(w: World, base: nat, fd: nat): (r: nat)
    requires fd <= |w.slots|
    ensures fd <= r <= |w.slots|
    ensures r < |w.slots| ==> w.slots[r].Some? && w.slots[r].value.base == base
    ensures forall i :: fd <= i < r ==> !(w.slots[i].Some? && w.slots[i].value.base == base)
    decreases |w.slots| - fd
  {
    if fd == |w.slots| || (w.slots[fd].Some? && w.slots[fd].value.base == base) then fd else SlotOf(w, base, fd + 1)
  }

  /** FILEUnMapBase */
  function DoMunmap(w: World, base: nat): World {
    var fd := SlotOf(w, base, 0);
    if fd < |w.slots| then Release(w, fd) else w
  }

  /** Events that cannot happen change nothing. */
  predicate Possible(w: World, e: Event)
    requires |w.slots| == SLOTS
  {
    match e
    case MapSlot(fd, base, _) => fd < SLOTS && w.slots[fd] == None && Unused(w, base)
    case MapPlain(base, _) => Unused(w, base)
    case MapInside(fd, base) => fd < SLOTS && w.slots[fd] == None && Unused(w, base)
    case UnmapInside(fd) => fd < SLOTS && w.slots[fd].Some? && w.slots[fd].value.id < |w.made| &&
                            w.made[w.slots[fd].value.id].birth == None
    case Munmap(_) => true
    case Die(id) => id in w.wrappers
  }

  function Next(w: World, e: Event): World
    requires |w.slots| == |w.gens| == SLOTS && Possible(w, e)
  {
    match e
    case MapSlot(fd, base, luck) => DoMapSlot(w, fd, base, luck)
    case MapPlain(base, luck) => DoMapPlain(w, base, luck)
    case MapInside(fd, base) => Enter(w, fd, base, false)
    case UnmapInside(fd) => Release(w, fd)
    case Munmap(base) => DoMunmap(w, base)
    case Die(id) => DoDie(w, id)
  }
}
