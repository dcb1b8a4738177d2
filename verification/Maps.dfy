/** The tables of io.c themselves, and the leaves that change them: MapOwner's steps, in place. */
module Maps {
  import opened Options
  import opened MapOwner
  import opened MapSafety

  /** Slot fd is the first that holds a mapping at the base. */
  ghost predicate AtFirst(slots: seq<Option<Region>>, fd: nat, base: nat)
    requires fd < |slots|
  {
    && slots[fd].Some? && slots[fd].value.base == base
    && forall i :: 0 <= i < fd ==> !(slots[i].Some? && slots[i].value.base == base)
  }

  class Maps {
    const gens: array<nat>             // JABC_MAP_GEN
    const slots: array<Option<Region>> // FILE_WANT_BUFS
    var pinMap: nat
    var pinFd: nat
    var wrappers: map<nat, Wrapper>    // the records the engine holds
    ghost var made: seq<Mapping>
    ghost var released: seq<nat>
    var count: nat                     // how many mappings were made

    ghost predicate Valid()
      reads this, gens, slots
    {
      gens.Length == slots.Length == SLOTS && count == |made|
    }

    ghost function Now(): World
      reads this, gens, slots
    {
      World(gens[..], slots[..], wrappers, pinMap, pinFd, made, released)
    }

    constructor ()
      ensures Valid() && fresh(gens) && fresh(slots)
      ensures Now() == World(seq(SLOTS, _ => 0), seq(SLOTS, _ => None), map[], 0, 0, [], [])
    {
      gens := new nat[SLOTS](_ => 0);
      slots := new Option<Region>[SLOTS](_ => None);
      pinMap, pinFd, wrappers, made, released, count := 0, 0, map[], [], [], 0;
    }

    /** JABCMapIdent: an ident no slot was given before, as long as generations fit. */
    method TakeIdent(fd: nat) returns (ident: nat)
      requires Valid() && fd < SLOTS
      modifies gens
      ensures gens[..] == old(gens[..])[fd := old(gens[fd]) + 1] && ident == Ident(gens[fd], fd)
      ensures FdOf(ident) == fd && GenOf(ident) == gens[fd] % GENS
      ensures gens[fd] < GENS ==> forall f: nat, g: nat :: f < SLOTS && g <= old(gens[f]) ==> Ident(g, f) != ident
    {
      gens[fd] := gens[fd] + 1;
      ident := Ident(gens[fd], fd);
      IdentParts(gens[fd], fd);
      if gens[fd] < GENS {
        forall f: nat, g: nat | f < SLOTS && g <= old(gens[f]) ensures Ident(g, f) != ident {
          IdentsDiffer(g, f, gens[fd], fd);
        }
      }
    }

    /** JABCPinTake */
    method PinTake(fd: bool)
      modifies this`pinMap, this`pinFd
      ensures pinMap == old(pinMap) + 1 && pinFd == old(pinFd) + if fd then 1 else 0
    {
      pinMap := pinMap + 1;
      if fd { pinFd := pinFd + 1; }
    }

    /** JABCPinDrop */
    method DropPin(fd: bool)
      modifies this`pinMap, this`pinFd
      ensures Now() == PinDrop(old(Now()), fd)
    {
      if pinMap > 0 { pinMap := pinMap - 1; }
      if fd && pinFd > 0 { pinFd := pinFd - 1; }
    }

    /** FILEUnMap */
    method Unmap(fd: nat)
      requires Valid() && fd < SLOTS && slots[fd].Some?
      modifies this`made, this`released, slots
      ensures Valid() && Now() == Release(old(Now()), fd)
    {
      var id := slots[fd].value.id;
      slots[fd] := None;
      released := released + [id];
      if id < count { made := made[id := made[id].(place := Gone)]; }
    }

    /** The kernel maps, and the file layer books the slot. */
    method Book(fd: nat, base: nat, ghost birth: Option<Birth>) returns (id: nat)
      requires Valid() && fd < SLOTS
      modifies this`made, this`count, slots
      ensures Valid() && id == old(count)
      ensures slots[..] == old(slots[..])[fd := Some(Region(base, id))]
      ensures made == old(made) + [Mapping(birth, InSlot(fd))]
    {
      id := count;
      slots[fd] := Some(Region(base, id));
      made := made + [Mapping(birth, InSlot(fd))];
      count := count + 1;
    }

    /** io._mmap, "rw" and "c"; ok when a wrapper comes of it. */
    method MmapSlot(fd: nat, base: nat, luck: Luck) returns (ok: bool)
      requires Valid() && fd < SLOTS && slots[fd] == None
      modifies this, gens, slots
      ensures Valid() && Now() == DoMapSlot(old(Now()), fd, base, luck) && ok == luck.AllWell?
    {
      var id := Book(fd, base, if luck.TooBig? then None else Some(Birth(fd, gens[fd] + 1)));
      if luck.TooBig? {
        Unmap(fd);
        return false;
      }
      var ident := TakeIdent(fd);
      if luck.NoRecord? || luck.NoBuffer? {
        Unmap(fd);
        return false;
      }
      wrappers := wrappers[id := Slotted(base, ident)];
      PinTake(true);
      return true;
    }

    /** io._mmap, "r", and io._ram. */
    method MmapPlain(base: nat, luck: Luck) returns (ok: bool)
      requires Valid()
      modifies this
      ensures Valid() && Now() == DoMapPlain(old(Now()), base, luck) && ok == luck.AllWell?
    {
      var id := count;
      count := count + 1;
      if !luck.AllWell? {
        made, released := made + [Mapping(None, Gone)], released + [id];
        return false;
      }
      made := made + [Mapping(None, Held)];
      wrappers := wrappers[id := Plain(base)];
      PinTake(false);
      return true;
    }

    /** io._munmap: the slot whose mapping starts at the view's base, if any. */
    method Munmap(base: nat)
      requires Valid()
      modifies this`made, this`released, slots
      ensures Valid() && Now() == DoMunmap(old(Now()), base)
      ensures forall fd :: 0 <= fd < SLOTS && AtFirst(old(slots[..]), fd, base) ==>
                slots[..] == old(slots[..])[fd := None] && released == old(released) + [old(slots[..])[fd].value.id]
      ensures (forall fd :: 0 <= fd < SLOTS && old(slots[..])[fd].Some? ==> old(slots[..])[fd].value.base != base) ==>
                Now() == old(Now())
    {
      var fd := 0;
      while fd < SLOTS && !(slots[fd].Some? && slots[fd].value.base == base)
        invariant fd <= SLOTS && SlotOf(Now(), base, 0) == SlotOf(Now(), base, fd)
        invariant forall i :: 0 <= i < fd ==> !(slots[i].Some? && slots[i].value.base == base)
      {
        fd := fd + 1;
      }
      if fd < SLOTS { Unmap(fd); }
    }

    /** JABCMapFree, JABCMapROFree and JABCRamFree: the wrapper of mapping `id` dies. */
    method Free(id: nat)
      requires Valid() && id in wrappers
      modifies this, slots
      ensures Valid() && Now() == DoDie(old(Now()), id)
    {
      var r := wrappers[id];
      wrappers := wrappers - {id};
      match r {
        case Plain(_) =>
          DropPin(false);
          released := released + [id];
          if id < count { made := made[id := made[id].(place := Gone)]; }
        case Slotted(base, ident) =>
          DropPin(true);
          var fd := FdOf(ident);
          if slots[fd].Some? && slots[fd].value.base == base && GenOf(ident) == gens[fd] {
            Unmap(fd);
          }
      }
    }
  }

  /** One event on the tables; what C code maps and unmaps it books and releases. */
  method Play(m: Maps, e: Event)
    requires m.Valid() && Possible(m.Now(), e)
    modifies m, m.gens, m.slots
    ensures m.Valid() && m.Now() == Next(old(m.Now()), e)
  {
    match e {
      case MapSlot(fd, base, luck) => var _ := m.MmapSlot(fd, base, luck);
      case MapPlain(base, luck) => var _ := m.MmapPlain(base, luck);
      case MapInside(fd, base) => var _ := m.Book(fd, base, None);
      case UnmapInside(fd) => m.Unmap(fd);
      case Munmap(base) => m.Munmap(base);
      case Die(id) => m.Free(id);
    }
  }

  /** The tables taken through a history, its events in order, end as the model says. */
  method Drive(run: seq<Event>) returns (m: Maps)
    requires forall i :: 0 <= i < |run| ==> Possible(After(run[..i]), run[i])
    ensures m.Valid() && m.Now() == After(run)
  {
    m := new Maps();
    for i := 0 to |run|
      invariant m.Valid() && m.Now() == After(run[..i])
      invariant fresh(m) && fresh(m.gens) && fresh(m.slots)
    {
      assert run[..i + 1][..i] == run[..i];
      Play(m, run[i]);
    }
    assert run[..|run|] == run;
  }
}
