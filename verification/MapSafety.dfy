/** What every history of mappings keeps (io.c): each mapping unmapped once, by its own wrapper or on request. */
module MapSafety {
  import opened Options
  import opened MapOwner

  // ----- the invariant, clause by clause

  /** JS-made mappings have generations of their own, none past the slot's counter. */
  ghost predicate BirthsOk(made: seq<Mapping>, gens: seq<nat>) {
    && (forall i :: 0 <= i < |made| && made[i].birth.Some? ==>
          made[i].birth.value.fd < |gens| && 1 <= made[i].birth.value.gen <= gens[made[i].birth.value.fd])
    && forall i, j :: 0 <= i < j < |made| && made[i].birth.Some? ==> made[i].birth != made[j].birth
  }

  /** A slot holds a mapping of its current generation, or one C code made. */
  ghost predicate SlotsOk(slots: seq<Option<Region>>, made: seq<Mapping>, gens: seq<nat>)
    requires |slots| == |gens|
  {
    && (forall fd :: 0 <= fd < |slots| && slots[fd].Some? ==> SlotOk(fd, slots[fd].value.id, made, gens[fd]))
    && forall id :: 0 <= id < |made| && made[id].place.InSlot? ==> BackLink(slots, made[id].place.fd, id)
  }

  predicate SlotOk(fd: nat, id: nat, made: seq<Mapping>, gen: nat) {
    && id < |made| && made[id].place == InSlot(fd)
    && (made[id].birth.Some? ==> made[id].birth.value == Birth(fd, gen))
  }

  predicate BackLink(slots: seq<Option<Region>>, fd: nat, id: nat) {
    fd < |slots| && slots[fd].Some? && slots[fd].value.id == id
  }

  ghost predicate WrappersOk(wrappers: map<nat, Wrapper>, made: seq<Mapping>) {
    && (forall id <- wrappers :: WrapperOk(id, wrappers[id], made))
    && forall id :: 0 <= id < |made| && made[id].place == Held ==> id in wrappers
  }

  predicate WrapperOk(id: nat, r: Wrapper, made: seq<Mapping>) {
    && id < |made|
    && if made[id].birth == None then r.Plain? && made[id].place == Held
       else r.Slotted? && r.ident == Ident(made[id].birth.value.gen, made[id].birth.value.fd) && made[id].place != Held
  }

  /** The mappings unmapped are those that are gone, each once. */
  ghost predicate GoneOk(made: seq<Mapping>, released: seq<nat>) {
    && (forall i, j :: 0 <= i < j < |released| ==> released[i] != released[j])
    && forall id :: id in released <==> 0 <= id < |made| && made[id].place == Gone
  }

  /** Live mappings have bases of their own. */
  ghost predicate Apart(slots: seq<Option<Region>>, wrappers: map<nat, Wrapper>) {
    && (forall fd, fd' :: 0 <= fd < fd' < |slots| && slots[fd].Some? && slots[fd'].Some? ==>
          slots[fd].value.base != slots[fd'].value.base)
    && forall fd, id :: 0 <= fd < |slots| && slots[fd].Some? && id in wrappers && wrappers[id].Plain? ==>
          slots[fd].value.base != wrappers[id].base
  }

  function SlottedIds(wrappers: map<nat, Wrapper>): set<nat> { set id | id in wrappers && wrappers[id].Slotted? }

  /** The pin counters count the live wrappers. */
  ghost predicate PinsOk(wrappers: map<nat, Wrapper>, pinMap: nat, pinFd: nat) {
    pinMap == |wrappers| && pinFd == |SlottedIds(wrappers)|
  }

  ghost predicate Inv(w: World) {
    && |w.slots| == |w.gens| == SLOTS
    && BirthsOk(w.made, w.gens) && SlotsOk(w.slots, w.made, w.gens) && WrappersOk(w.wrappers, w.made)
    && GoneOk(w.made, w.released) && Apart(w.slots, w.wrappers) && PinsOk(w.wrappers, w.pinMap, w.pinFd)
  }

  function Start(): World { World(seq(SLOTS, _ => 0), seq(SLOTS, _ => None), map[], 0, 0, [], []) }

  // ----- each step keeps it

  /** A mapping not gone yet goes. */
  lemma GoneNow(made: seq<Mapping>, released: seq<nat>, id: nat)
    requires GoneOk(made, released) && id < |made| && made[id].place != Gone
    ensures GoneOk(made[id := made[id].(place := Gone)], released + [id])
  {
    var made' := made[id := made[id].(place := Gone)];
    forall j ensures j in released + [id] <==> 0 <= j < |made'| && made'[j].place == Gone {
    }
  }

  lemma ReleaseKeeps(w: World, fd: nat)
    requires Inv(w) && fd < SLOTS && w.slots[fd].Some?
    ensures Inv(Release(w, fd))
  {
    var id := w.slots[fd].value.id;
    assert SlotOk(fd, id, w.made, w.gens[fd]);
    GoneNow(w.made, w.released, id);
    var w' := Release(w, fd);
    assert SlotsOk(w'.slots, w'.made, w'.gens) by {
      forall i | 0 <= i < SLOTS && w'.slots[i].Some? ensures SlotOk(i, w'.slots[i].value.id, w'.made, w'.gens[i]) {
        assert SlotOk(i, w.slots[i].value.id, w.made, w.gens[i]);
      }
      forall j | 0 <= j < |w'.made| && w'.made[j].place.InSlot? ensures BackLink(w'.slots, w'.made[j].place.fd, j) {
        assert BackLink(w.slots, w.made[j].place.fd, j);
      }
    }
    assert WrappersOk(w'.wrappers, w'.made) by {
      forall j | j in w'.wrappers ensures WrapperOk(j, w'.wrappers[j], w'.made) {
        assert WrapperOk(j, w.wrappers[j], w.made);
      }
    }
  }

  /** One more mapping made. */
  lemma GoneMore(made: seq<Mapping>, released: seq<nat>, m: Mapping)
    requires GoneOk(made, released) && m.place != Gone
    ensures GoneOk(made + [m], released)
  {
  }

  lemma BirthsMore(made: seq<Mapping>, gens: seq<nat>, fd: nat, place: Place)
    requires BirthsOk(made, gens) && fd < |gens|
    ensures BirthsOk(made + [Mapping(None, place)], gens)
    ensures BirthsOk(made + [Mapping(Some(Birth(fd, gens[fd] + 1)), place)], gens[fd := gens[fd] + 1])
  {
  }

  lemma WrappersMore(wrappers: map<nat, Wrapper>, made: seq<Mapping>, m: Mapping)
    requires WrappersOk(wrappers, made) && m.place != Held
    ensures WrappersOk(wrappers, made + [m]) && |made| !in wrappers
  {
    forall j | j in wrappers ensures j != |made| && WrapperOk(j, wrappers[j], made + [m]) {
      assert WrapperOk(j, wrappers[j], made);
    }
  }

  lemma EnterKeeps(w: World, fd: nat, base: nat, js: bool)
    requires Inv(w) && fd < SLOTS && w.slots[fd] == None && Unused(w, base)
    ensures Inv(Enter(w, fd, base, js))
  {
    var w', id := Enter(w, fd, base, js), |w.made|;
    BirthsMore(w.made, w.gens, fd, InSlot(fd));
    GoneMore(w.made, w.released, w'.made[id]);
    WrappersMore(w.wrappers, w.made, w'.made[id]);
    assert SlotsOk(w'.slots, w'.made, w'.gens) by {
      forall i | 0 <= i < SLOTS && w'.slots[i].Some? ensures SlotOk(i, w'.slots[i].value.id, w'.made, w'.gens[i]) {
        if i != fd { assert SlotOk(i, w.slots[i].value.id, w.made, w.gens[i]); }
      }
      forall j | 0 <= j < |w'.made| && w'.made[j].place.InSlot? ensures BackLink(w'.slots, w'.made[j].place.fd, j) {
        if j < id { assert BackLink(w.slots, w.made[j].place.fd, j); }
      }
    }
  }

  lemma PinsMore(wrappers: map<nat, Wrapper>, id: nat, r: Wrapper)
    requires id !in wrappers
    ensures |wrappers[id := r]| == |wrappers| + 1
    ensures |SlottedIds(wrappers[id := r])| == |SlottedIds(wrappers)| + if r.Slotted? then 1 else 0
  {
    assert SlottedIds(wrappers[id := r]) == SlottedIds(wrappers) + if r.Slotted? then {id} else {};
  }

  lemma Wrapped(wrappers: map<nat, Wrapper>, made: seq<Mapping>, id: nat, r: Wrapper)
    requires WrappersOk(wrappers, made) && WrapperOk(id, r, made)
    ensures WrappersOk(wrappers[id := r], made)
  {
    forall j | j in wrappers ensures WrapperOk(j, wrappers[j], made) {
    }
  }

  /** The wrapper of a slotted mapping, once it is made. */
  lemma WrapKeeps(w: World, id: nat, base: nat, b: Birth)
    requires Inv(w) && id < |w.made| && w.made[id].birth == Some(b) && w.made[id].place != Held && id !in w.wrappers
    ensures Inv(WrapSlot(w, id, base, b))
  {
    PinsMore(w.wrappers, id, Slotted(base, Ident(b.gen, b.fd)));
    Wrapped(w.wrappers, w.made, id, Slotted(base, Ident(b.gen, b.fd)));
  }

  lemma MapSlotKeeps(w: World, fd: nat, base: nat, luck: Luck)
    requires Inv(w) && fd < SLOTS && w.slots[fd] == None && Unused(w, base)
    ensures Inv(DoMapSlot(w, fd, base, luck))
  {
    var js := !luck.TooBig?;
    EnterKeeps(w, fd, base, js);
    if luck.AllWell? { MapSlotWell(w, fd, base); } else { MapSlotIll(w, fd, base, js); }
    MapSlotIs(w, fd, base, luck, js);
  }

  lemma MapSlotIs(w: World, fd: nat, base: nat, luck: Luck, js: bool)
    requires fd < |w.slots| == |w.gens| && w.slots[fd] == None && js == !luck.TooBig?
    ensures DoMapSlot(w, fd, base, luck) ==
            if luck.AllWell? then WrapSlot(Enter(w, fd, base, true), |w.made|, base, Birth(fd, w.gens[fd] + 1))
            else Release(Enter(w, fd, base, js), fd)
  {
  }

  lemma MapSlotIll(w: World, fd: nat, base: nat, js: bool)
    requires fd < |w.slots| == |w.gens| && fd < SLOTS && Inv(Enter(w, fd, base, js))
    ensures Inv(Release(Enter(w, fd, base, js), fd))
  {
    ReleaseKeeps(Enter(w, fd, base, js), fd);
  }

  lemma MapSlotWell(w: World, fd: nat, base: nat)
    requires Inv(w) && fd < SLOTS && w.slots[fd] == None && Inv(Enter(w, fd, base, true))
    ensures Inv(WrapSlot(Enter(w, fd, base, true), |w.made|, base, Birth(fd, w.gens[fd] + 1)))
  {
    WrappersMore(w.wrappers, w.made, Mapping(None, Gone));
    WrapKeeps(Enter(w, fd, base, true), |w.made|, base, Birth(fd, w.gens[fd] + 1));
  }

  /** What happens to mappings outside the slots leaves the slots as they are. */
  lemma SlotsMore(slots: seq<Option<Region>>, made: seq<Mapping>, gens: seq<nat>, m: Mapping)
    requires |slots| == |gens| && SlotsOk(slots, made, gens) && !m.place.InSlot?
    ensures SlotsOk(slots, made + [m], gens)
  {
    forall i | 0 <= i < |slots| && slots[i].Some? ensures SlotOk(i, slots[i].value.id, made + [m], gens[i]) {
      assert SlotOk(i, slots[i].value.id, made, gens[i]);
    }
  }

  lemma HeldKeeps(w: World, base: nat)
    requires Inv(w) && Unused(w, base)
    ensures Inv(DoMapPlain(w, base, AllWell))
  {
    var id := |w.made|;
    BirthsMore(w.made, w.gens, 0, Held);
    GoneMore(w.made, w.released, Mapping(None, Held));
    SlotsMore(w.slots, w.made, w.gens, Mapping(None, Held));
    PlainWrapped(w.wrappers, w.made, id, base);
    PinsMore(w.wrappers, id, Plain(base));
  }

  lemma MapPlainKeeps(w: World, base: nat, luck: Luck)
    requires Inv(w) && Unused(w, base)
    ensures Inv(DoMapPlain(w, base, luck))
  {
    if luck.AllWell? {
      HeldKeeps(w, base);
    } else {
      var id, end := |w.made|, Mapping(None, Gone);
      BirthsMore(w.made, w.gens, 0, Gone);
      GoneMore(w.made, w.released, Mapping(None, Held));
      GoneNow(w.made + [Mapping(None, Held)], w.released, id);
      assert (w.made + [Mapping(None, Held)])[id := end] == w.made + [end];
      SlotsMore(w.slots, w.made, w.gens, end);
      WrappersMore(w.wrappers, w.made, end);
    }
  }

  lemma PlainWrapped(wrappers: map<nat, Wrapper>, made: seq<Mapping>, id: nat, base: nat)
    requires WrappersOk(wrappers, made) && id == |made|
    ensures WrappersOk(wrappers[id := Plain(base)], made + [Mapping(None, Held)]) && id !in wrappers
  {
    WrappersMore(wrappers, made, Mapping(None, Gone));
    forall j | j in wrappers ensures WrapperOk(j, wrappers[j], made + [Mapping(None, Held)]) {
      assert WrapperOk(j, wrappers[j], made);
    }
  }

  /** The pins of a wrapper that goes; the decrements do not stop short. */
  lemma UnwrapPins(w: World, id: nat)
    requires PinsOk(w.wrappers, w.pinMap, w.pinFd) && id in w.wrappers
    ensures var t := Unwrap(w, id);
            && PinsOk(t.wrappers, t.pinMap, t.pinFd)
            && t.pinMap == w.pinMap - 1 && t.pinFd == w.pinFd - (if w.wrappers[id].Slotted? then 1 else 0)
  {
    var t := Unwrap(w, id);
    assert id in w.wrappers.Keys && t.wrappers.Keys == w.wrappers.Keys - {id};
    assert SlottedIds(t.wrappers) == SlottedIds(w.wrappers) - {id};
    if w.wrappers[id].Slotted? { assert id in SlottedIds(w.wrappers); }
  }

  lemma DieSlottedKeeps(w: World, id: nat)
    requires Inv(w) && id in w.wrappers && w.wrappers[id].Slotted?
    ensures Inv(DoDie(w, id))
  {
    UnwrapPins(w, id);
    var t, fd := Unwrap(w, id), FdOf(w.wrappers[id].ident);
    assert WrapperOk(id, w.wrappers[id], w.made);
    assert Inv(t);
    if t.slots[fd].Some? { ReleaseKeeps(t, fd); }
  }

  /** A mapping without slot goes, and its wrapper with it. */
  lemma HeldGoes(w: World, id: nat)
    requires |w.slots| == |w.gens| && id < |w.made| && w.made[id] == Mapping(None, Held)
    requires SlotsOk(w.slots, w.made, w.gens) && WrappersOk(w.wrappers, w.made) && BirthsOk(w.made, w.gens)
    ensures var made' := w.made[id := Mapping(None, Gone)];
            BirthsOk(made', w.gens) && SlotsOk(w.slots, made', w.gens) && WrappersOk(w.wrappers - {id}, made')
  {
    var made' := w.made[id := Mapping(None, Gone)];
    forall i | 0 <= i < |w.slots| && w.slots[i].Some? ensures SlotOk(i, w.slots[i].value.id, made', w.gens[i]) {
      assert SlotOk(i, w.slots[i].value.id, w.made, w.gens[i]);
    }
    forall j | j in w.wrappers - {id} ensures WrapperOk(j, w.wrappers[j], made') {
      assert WrapperOk(j, w.wrappers[j], w.made);
    }
  }

  lemma DiePlainKeeps(w: World, id: nat)
    requires Inv(w) && id in w.wrappers && w.wrappers[id].Plain?
    ensures Inv(DoDie(w, id))
  {
    UnwrapPins(w, id);
    assert WrapperOk(id, w.wrappers[id], w.made);
    GoneNow(w.made, w.released, id);
    HeldGoes(w, id);
  }

  lemma NextKeeps(w: World, e: Event)
    requires Inv(w) && Possible(w, e)
    ensures Inv(Next(w, e))
  {
    match e
    case MapSlot(fd, base, luck) => MapSlotKeeps(w, fd, base, luck);
    case MapPlain(base, luck) => MapPlainKeeps(w, base, luck);
    case MapInside(fd, base) => EnterKeeps(w, fd, base, false);
    case UnmapInside(fd) => ReleaseKeeps(w, fd);
    case Munmap(base) => if SlotOf(w, base, 0) < SLOTS { ReleaseKeeps(w, SlotOf(w, base, 0)); }
    case Die(id) => if w.wrappers[id].Slotted? { DieSlottedKeeps(w, id); } else { DiePlainKeeps(w, id); }
  }

  // ----- histories

  /** Event by event from the start; what cannot happen is passed over. */
  function After(run: seq<Event>): (w: World)
    ensures |w.slots| == |w.gens| == SLOTS
  {
    if run == [] then Start()
    else
      var w, e := After(run[..|run| - 1]), run[|run| - 1];
      if Possible(w, e) then Next(w, e) else w
  }

  lemma {:induction false} EveryRun(run: seq<Event>)
    ensures Inv(After(run))
  {
    if run != [] {
      var w, e := After(run[..|run| - 1]), run[|run| - 1];
      EveryRun(run[..|run| - 1]);
      if Possible(w, e) { NextKeeps(w, e); }
    } else {
      assert SlottedIds(Start().wrappers) == {};
    }
  }

  /** No mapping is unmapped twice, none while it is in use, and the pin counters are the numbers of live wrappers. */
  lemma UnmappedOnce(run: seq<Event>)
    ensures var w := After(run);
            && (forall i, j :: 0 <= i < j < |w.released| ==> w.released[i] != w.released[j])
            && (forall fd :: 0 <= fd < SLOTS && w.slots[fd].Some? ==> w.slots[fd].value.id !in w.released)
            && (forall id <- w.wrappers :: w.wrappers[id].Plain? ==> id !in w.released)
            && w.pinMap == |w.wrappers| && w.pinFd == |SlottedIds(w.wrappers)|
  {
    EveryRun(run);
    var w := After(run);
    forall fd | 0 <= fd < SLOTS && w.slots[fd].Some? ensures w.slots[fd].value.id !in w.released {
      assert SlotOk(fd, w.slots[fd].value.id, w.made, w.gens[fd]);
    }
    forall id | id in w.wrappers && w.wrappers[id].Plain? ensures id !in w.released {
      assert WrapperOk(id, w.wrappers[id], w.made);
    }
  }

  /** Every mapping made is in the slot it says, in the hands of its wrapper, or unmapped. */
  lemma NoneLost(run: seq<Event>, id: nat)
    requires id < |After(run).made|
    ensures var w := After(run);
            match w.made[id].place
            case InSlot(fd) => fd < SLOTS && w.slots[fd].Some? && w.slots[fd].value.id == id
            case Held => id in w.wrappers && w.wrappers[id].Plain?
            case Gone => id in w.released
  {
    EveryRun(run);
    var w := After(run);
    if w.made[id].place.InSlot? { assert BackLink(w.slots, w.made[id].place.fd, id); }
    if w.made[id].place.Held? { assert WrapperOk(id, w.wrappers[id], w.made); }
  }

  // ----- what a dying wrapper unmaps

  /** The slot is as the wrapper's mapping would leave it. */
  predicate Matches(w: World, id: nat)
    requires |w.slots| == |w.gens| == SLOTS && id in w.wrappers && id < |w.made| && w.made[id].birth.Some?
  {
    var b := w.made[id].birth.value;
    b.fd < SLOTS && w.slots[b.fd].Some? && w.slots[b.fd].value.base == w.wrappers[id].base && b.gen == w.gens[b.fd]
  }

  /**
    A dying wrapper unmaps exactly when its slot holds a mapping at its base and still has its generation,
    and that generation fits the ident; what it unmaps is its own mapping, or one C code made.
  */
  lemma DieExactly(w: World, id: nat)
    requires Inv(w) && id in w.wrappers && w.wrappers[id].Slotted?
    ensures id < |w.made| && w.made[id].birth.Some?
    ensures var b := w.made[id].birth.value;
            if Matches(w, id) && b.gen < GENS
            then DoDie(w, id).released == w.released + [w.slots[b.fd].value.id]
                 && (w.slots[b.fd].value.id == id || MadeInside(w, w.slots[b.fd].value.id))
            else DoDie(w, id).released == w.released
  {
    assert WrapperOk(id, w.wrappers[id], w.made);
    var b := w.made[id].birth.value;
    DieReads(w, id, b);
    var slot := w.slots[b.fd];
    if slot.Some? { assert SlotOk(b.fd, slot.value.id, w.made, w.gens[b.fd]); }
  }

  /** The free function, with the ident unpacked. */
  lemma DieReads(w: World, id: nat, b: Birth)
    requires |w.slots| == |w.gens| == SLOTS && b.fd < SLOTS && b.gen <= w.gens[b.fd]
    requires id in w.wrappers && w.wrappers[id].Slotted? && w.wrappers[id].ident == Ident(b.gen, b.fd)
    ensures DoDie(w, id) ==
      if w.slots[b.fd].Some? && w.slots[b.fd].value.base == w.wrappers[id].base && b.gen == w.gens[b.fd] && b.gen < GENS
      then Release(Unwrap(w, id), b.fd) else Unwrap(w, id)
  {
    IdentParts(b.gen, b.fd);
  }

  predicate MadeInside(w: World, id: nat) { id < |w.made| && w.made[id].birth == None }

  /** So no wrapper unmaps what JS mapped later, in its slot or another. */
  lemma NeverALaterOne(run: seq<Event>, id: nat, other: nat)
    requires id in After(run).wrappers && other in DoDie(After(run), id).released && other !in After(run).released
    ensures other == id || MadeInside(After(run), other)
  {
    var w := After(run);
    EveryRun(run);
    if w.wrappers[id].Slotted? { DieExactly(w, id); }
  }

  /** While its mapping is in place, a wrapper's death unmaps it, until the generations outgrow the ident. */
  lemma OwnExactly(w: World, id: nat)
    requires Inv(w) && id in w.wrappers && w.wrappers[id].Slotted? && id < |w.made| && w.made[id].place.InSlot?
    requires w.made[id].place.fd < SLOTS && w.slots[w.made[id].place.fd].Some?
    requires w.slots[w.made[id].place.fd].value.base == w.wrappers[id].base
    ensures w.made[id].birth.Some? && (id in DoDie(w, id).released <==> w.made[id].birth.value.gen < GENS)
  {
    DieExactly(w, id);
    assert BackLink(w.slots, w.made[id].place.fd, id);
    assert SlotOk(w.made[id].place.fd, id, w.made, w.gens[w.made[id].place.fd]);
  }

  /**
    The generation does not guard what C code maps: a wrapper whose mapping was unmapped early takes away
    a mapping made inside, when it comes into the same slot at the same address.
  */
  lemma InsideExample(w: World)
    requires |w.slots| == |w.gens| == SLOTS && w.slots[3] == None && w.gens[3] + 1 < GENS
    ensures var id := |w.made|;
            var w1 := DoMapSlot(w, 3, 4096, AllWell);
            w1.slots[3].Some? &&
            var w2 := Enter(Release(w1, 3), 3, 4096, false);
            id in w2.wrappers && DoDie(w2, id).released == w.released + [id, id + 1]
  {
    var id, w1 := |w.made|, DoMapSlot(w, 3, 4096, AllWell);
    var w2 := Enter(Release(w1, 3), 3, 4096, false);
    DieReads(w2, id, Birth(3, w.gens[3] + 1));
    assert Unwrap(w2, id).released == w.released + [id];
    assert w2.slots[3] == Some(Region(4096, id + 1));
  }

  /** An early release of a once-map or anonymous map finds no slot and does nothing. */
  lemma MunmapPlainNothing(run: seq<Event>, id: nat)
    requires id in After(run).wrappers && After(run).wrappers[id].Plain?
    ensures DoMunmap(After(run), After(run).wrappers[id].base) == After(run)
  {
    EveryRun(run);
    var w := After(run);
    forall fd | 0 <= fd < SLOTS && w.slots[fd].Some? ensures w.slots[fd].value.base != w.wrappers[id].base {
    }
  }

  // ----- what the calls come to

  /** The mapping is unmapped; it was in slot fd. */
  ghost predicate Unmapped(w: World, t: World, fd: nat)
    requires fd < |w.slots| && w.slots[fd].Some? && w.slots[fd].value.id < |w.made|
  {
    var id := w.slots[fd].value.id;
    t == w.(slots := w.slots[fd := None], made := w.made[id := w.made[id].(place := Gone)],
            released := w.released + [id])
  }

  /**
    An early unmap: the slot that holds a mapping at the base is emptied and the mapping unmapped, there and then,
    and nothing else changes; where no slot does, nothing changes at all.
  */
  lemma MunmapExactly(w: World, base: nat)
    requires Inv(w)
    ensures forall fd :: 0 <= fd < SLOTS && w.slots[fd].Some? && w.slots[fd].value.base == base ==>
              w.slots[fd].value.id < |w.made| && Unmapped(w, DoMunmap(w, base), fd)
    ensures (forall fd :: 0 <= fd < SLOTS && w.slots[fd].Some? ==> w.slots[fd].value.base != base) ==>
              DoMunmap(w, base) == w
  {
    forall fd | 0 <= fd < SLOTS && w.slots[fd].Some? && w.slots[fd].value.base == base
      ensures w.slots[fd].value.id < |w.made| && Unmapped(w, DoMunmap(w, base), fd)
    {
      assert SlotOk(fd, w.slots[fd].value.id, w.made, w.gens[fd]);
      assert SlotOf(w, base, 0) == fd;
    }
  }

  /** The tables as before a map, but for the generation, and the mapping made and unmapped, once. */
  ghost predicate CameAndWent(w: World, t: World, fd: nat, birth: Option<Birth>)
    requires fd < |w.gens|
  {
    t == w.(gens := if birth.Some? then w.gens[fd := birth.value.gen] else w.gens,
            made := w.made + [Mapping(birth, Gone)], released := w.released + [|w.made|])
  }

  /** A slotted map gives the slot its mapping and the mapping its wrapper, and takes the next generation. */
  lemma MapSlotGives(w: World, fd: nat, base: nat)
    requires Inv(w) && fd < SLOTS && w.slots[fd] == None && Unused(w, base)
    ensures var id, gen, t := |w.made|, w.gens[fd] + 1, DoMapSlot(w, fd, base, AllWell);
            && id !in w.wrappers
            && t == w.(slots := w.slots[fd := Some(Region(base, id))], gens := w.gens[fd := gen],
                       made := w.made + [Mapping(Some(Birth(fd, gen)), InSlot(fd))],
                       wrappers := w.wrappers[id := Slotted(base, Ident(gen, fd))],
                       pinMap := w.pinMap + 1, pinFd := w.pinFd + 1)
  {
    WrappersMore(w.wrappers, w.made, Mapping(None, Gone));
  }

  /** A map that fails once the kernel has mapped leaves nothing behind. */
  lemma FailedMap(w: World, fd: nat, base: nat, luck: Luck)
    requires Inv(w) && fd < SLOTS && w.slots[fd] == None && luck != AllWell
    ensures CameAndWent(w, DoMapSlot(w, fd, base, luck), fd,
                        if luck.TooBig? then None else Some(Birth(fd, w.gens[fd] + 1)))
    ensures CameAndWent(w, DoMapPlain(w, base, luck), fd, None)
  {
    var t := Enter(w, fd, base, !luck.TooBig?);
    assert t.slots[fd := None] == w.slots;
  }

  lemma MapUnmap(w: World, fd: nat, base: nat)
    requires Inv(w) && fd < SLOTS && w.slots[fd] == None && Unused(w, base)
    ensures var id, gen := |w.made|, w.gens[fd] + 1;
            DoMunmap(DoMapSlot(w, fd, base, AllWell), base) ==
            w.(gens := w.gens[fd := gen], made := w.made + [Mapping(Some(Birth(fd, gen)), Gone)],
               released := w.released + [id], wrappers := w.wrappers[id := Slotted(base, Ident(gen, fd))],
               pinMap := w.pinMap + 1, pinFd := w.pinFd + 1)
  {
    var m := DoMapSlot(w, fd, base, AllWell);
    MapSlotGives(w, fd, base);
    MapSlotKeeps(w, fd, base, AllWell);
    MunmapExactly(m, base);
    assert Unmapped(m, DoMunmap(m, base), fd) && m.slots[fd := None] == w.slots;
  }

  /** Mapped, unmapped early, and the wrapper dies: the early unmap releases it, the death nothing more. */
  lemma MapUnmapDie(w: World, fd: nat, base: nat)
    requires Inv(w) && fd < SLOTS && w.slots[fd] == None && Unused(w, base)
    ensures var id, u := |w.made|, DoMunmap(DoMapSlot(w, fd, base, AllWell), base);
            && |u.slots| == |u.gens| == SLOTS && id in u.wrappers
            && u.slots == w.slots && u.released == w.released + [id]
            && CameAndWent(w, DoDie(u, id), fd, Some(Birth(fd, w.gens[fd] + 1)))
  {
    MapUnmap(w, fd, base);
    WrappersMore(w.wrappers, w.made, Mapping(None, Gone));
    HuskDies(w, DoMunmap(DoMapSlot(w, fd, base, AllWell), base), |w.made|, fd, base, w.gens[fd] + 1);
  }

  /** The death of a wrapper whose slot is empty. */
  lemma HuskDies(w: World, u: World, id: nat, fd: nat, base: nat, gen: nat)
    requires |w.slots| == |w.gens| == SLOTS && fd < SLOTS && w.slots[fd] == None && id !in w.wrappers
    requires u == w.(gens := u.gens, made := u.made, released := u.released,
                     wrappers := w.wrappers[id := Slotted(base, Ident(gen, fd))],
                     pinMap := w.pinMap + 1, pinFd := w.pinFd + 1)
    requires |u.gens| == SLOTS && gen <= u.gens[fd]
    ensures DoDie(u, id) == w.(gens := u.gens, made := u.made, released := u.released)
  {
    DieReads(u, id, Birth(fd, gen));
    assert u.wrappers - {id} == w.wrappers;
  }

  /** Mapped, and the wrapper dies: its death releases it, as long as generations fit the ident. */
  lemma MapDie(w: World, fd: nat, base: nat)
    requires Inv(w) && fd < SLOTS && w.slots[fd] == None && Unused(w, base) && w.gens[fd] + 1 < GENS
    ensures var id, m := |w.made|, DoMapSlot(w, fd, base, AllWell);
            && |m.slots| == |m.gens| == SLOTS && id in m.wrappers
            && CameAndWent(w, DoDie(m, id), fd, Some(Birth(fd, w.gens[fd] + 1)))
  {
    var id, m := |w.made|, DoMapSlot(w, fd, base, AllWell);
    MapSlotGives(w, fd, base);
    DieReads(m, id, Birth(fd, w.gens[fd] + 1));
    assert m.wrappers - {id} == w.wrappers && m.slots[fd := None] == w.slots;
  }

  /** So does the death of a once-map's or anonymous map's. */
  lemma MapPlainDie(w: World, base: nat)
    requires Inv(w)
    ensures var id, m := |w.made|, DoMapPlain(w, base, AllWell);
            && id in m.wrappers && m.wrappers[id] == Plain(base) && m.released == w.released && m.slots == w.slots
            && CameAndWent(w, DoDie(m, id), 0, None)
  {
    var id, m := |w.made|, DoMapPlain(w, base, AllWell);
    WrappersMore(w.wrappers, w.made, Mapping(None, Gone));
    assert m.wrappers - {id} == w.wrappers;
  }
}
