/**
  The media keys: one key is active, the ring holds recent ones by slot, and every sender encrypts
  with the slot it points at.  Each method is one call, run under its locks.
*/
module KeyRing {
  import opened Wrappers

  type Key = string
  type Slot = nat
  type RoomId = nat

  const RING_SLOTS: nat := 16
  const SCREEN_SLOT: Slot := 0
  const U32: nat := 0x1_0000_0000

  datatype RoomKind = Voice | Screen

  /** `senders` are the key slots that the local senders of the room point at. */
  datatype Room = Room(kind: RoomKind, encrypting: bool, senders: seq<Slot>)

  function RotatingSlot(epoch: nat): Slot {
    1 + epoch % (RING_SLOTS - 1)
  }

  datatype Adoption = Adoption(key: Key, epoch: nat)

  /** The key last adopted for slot `s`. */
  function LastIn(adopted: seq<Adoption>, s: Slot): Option<Key> {
    if adopted == [] then None
    else
      var a := adopted[|adopted| - 1];
      if RotatingSlot(a.epoch) == s then Some(a.key) else LastIn(adopted[..|adopted| - 1], s)
  }

  function Pointing(n: nat, s: Slot): seq<Slot> {
    seq(n, _ => s)
  }

  function PointAt(room: Room, s: Slot): Room {
    room.(senders := Pointing(|room.senders|, s))
  }

  /** Senders point at the screen's slot, or at the voice slot if the room is a voice room. */
  ghost predicate Placed(room: Room, voiceSlot: Slot) {
    forall i :: 0 <= i < |room.senders| ==>
      room.senders[i] == SCREEN_SLOT || (room.kind == Voice && room.senders[i] == voiceSlot)
  }

  /** A room after a rekey: encrypting, its voice senders moved unless the slot is the screen's. */
  function Rekeyed(room: Room, slot: Slot): Room {
    var on := room.(encrypting := true);
    if room.kind == Voice && slot != SCREEN_SLOT then PointAt(on, slot) else on
  }

  /** A rekey turns encryption on and moves every sender of a voice room; a screen's senders stay where they are. */
  lemma RekeyMovesSenders(room: Room, slot: Slot)
    ensures var after := Rekeyed(room, slot);
            && after.kind == room.kind && after.encrypting && |after.senders| == |room.senders|
            && forall i :: 0 <= i < |room.senders| ==>
                 after.senders[i] == if room.kind == Voice && slot != 0 then slot else room.senders[i]
  {
  }

  /** A room whose senders are all pointed at one slot. */
  lemma PointingMovesAll(room: Room, slot: Slot)
    ensures var after := PointAt(room, slot);
            && after.kind == room.kind && after.encrypting == room.encrypting && |after.senders| == |room.senders|
            && forall i :: 0 <= i < |room.senders| ==> after.senders[i] == slot
  {
  }

  lemma RekeyedWell(rooms: map<RoomId, Room>, slot: Slot, voiceSlot: Slot)
    requires forall r :: r in rooms ==> Placed(rooms[r], voiceSlot)
    ensures forall r :: r in rooms ==> Rekeyed(rooms[r], slot).encrypting
    ensures forall r :: r in rooms ==> Placed(Rekeyed(rooms[r], slot), if slot != SCREEN_SLOT then slot else voiceSlot)
  {
  }

  lemma SlotInRing(epoch: nat)
    ensures SCREEN_SLOT < RotatingSlot(epoch) < RING_SLOTS
  {
  }

  /** Every slot but the screen's holds the key last adopted for it. */
  ghost predicate RingMatches(ring: map<Slot, Key>, adopted: seq<Adoption>) {
    forall s :: s != SCREEN_SLOT ==> LastIn(adopted, s) == if s in ring then Some(ring[s]) else None
  }

  lemma RingGrows(ring: map<Slot, Key>, adopted: seq<Adoption>, a: Adoption)
    requires RingMatches(ring, adopted)
    ensures RingMatches(ring[SCREEN_SLOT := a.key][RotatingSlot(a.epoch) := a.key], adopted + [a])
  {
    assert (adopted + [a])[..|adopted|] == adopted;
  }

  predicate Holds(ring: map<Slot, Key>, s: Slot, key: Key) {
    s in ring && ring[s] == key
  }

  class Media {
    /** Whether rekeys overlap two slots, and the key set by hand, if any. */
    const overlap: bool
    const byHand: Option<Key>
    var active: Option<Key>
    var ring: map<Slot, Key>
    var voiceSlot: Slot
    /** The registered rooms that are still alive. */
    var rooms: map<RoomId, Room>
    ghost var adopted: seq<Adoption>

    ghost predicate RoomsValid()
      reads this
    {
      forall r :: r in rooms ==> rooms[r].encrypting == active.Some? && Placed(rooms[r], voiceSlot)
    }

    ghost predicate Valid()
      reads this
    {
      && RoomsValid()
      && (active.None? ==> adopted == [] && voiceSlot == SCREEN_SLOT)
      && (active.Some? ==>
            && adopted != [] && adopted[|adopted| - 1].key == active.value
            && Holds(ring, SCREEN_SLOT, active.value) && Holds(ring, voiceSlot, active.value))
      && (if overlap then RingMatches(ring, adopted) else voiceSlot == SCREEN_SLOT)
    }

    constructor (overlap: bool, byHand: Option<Key>, placeholder: Key)
      ensures Valid() && active == None && rooms == map[] && adopted == []
      ensures this.overlap == overlap && this.byHand == byHand
    {
      this.overlap, this.byHand := overlap, byHand;
      active, ring, voiceSlot, rooms, adopted := None, map[SCREEN_SLOT := placeholder], SCREEN_SLOT, map[], [];
    }

    /** A room's options put the current key, or the one set by hand, where the screen looks for it. */
    method RoomOptions()
      requires Valid()
      modifies this`ring
      ensures Valid() && (active.Some? ==> ring == old(ring))
    {
      var current := if active.Some? then active else byHand;
      if current.Some? {
        ring := ring[SCREEN_SLOT := current.value];
      }
    }

    /** A publication made after a rekey starts at the screen's slot and is moved to the voice slot. */
    method PlaceNewVoicePublication(id: RoomId)
      requires Valid() && id in rooms && rooms[id].kind == Voice
      modifies this`rooms
      ensures Valid()
      ensures rooms == old(rooms)[id := if voiceSlot != SCREEN_SLOT then PointAt(old(rooms)[id], voiceSlot)
                                        else old(rooms)[id]]
    {
      if overlap && voiceSlot != SCREEN_SLOT {
        rooms := rooms[id := PointAt(rooms[id], voiceSlot)];
      }
    }

    method RegisterRoom(id: RoomId, kind: RoomKind, senders: nat)
      requires Valid() && id !in rooms
      modifies this`rooms
      ensures Valid()
      ensures rooms == old(rooms)[id := Room(kind, active.Some?, Pointing(senders, if kind == Voice then voiceSlot
                                                                                  else SCREEN_SLOT))]
    {
      rooms := rooms[id := Room(kind, active.Some?, Pointing(senders, SCREEN_SLOT))];
      if kind == Voice {
        PlaceNewVoicePublication(id);
      }
    }

    /** A new sender of a live room, before it is placed. */
    method Publish(id: RoomId)
      requires Valid() && id in rooms
      modifies this`rooms
      ensures Valid()
      ensures rooms == old(rooms)[id := old(rooms)[id].(senders := old(rooms)[id].senders + [SCREEN_SLOT])]
    {
      rooms := rooms[id := rooms[id].(senders := rooms[id].senders + [SCREEN_SLOT])];
    }

    method DropRoom(id: RoomId)
      requires Valid()
      modifies this`rooms
      ensures Valid() && rooms == old(rooms) - {id}
    {
      rooms := rooms - {id};
    }

    /** Adopts a key: into the screen's slot, into the epoch's slot when rekeys overlap, and into every room. */
    method ApplyKey(key: Key, epoch: nat)
      requires Valid() && epoch < U32
      modifies this
      ensures Valid() && active == Some(key)
      ensures adopted == if old(active) == Some(key) then old(adopted) else old(adopted) + [Adoption(key, epoch)]
      ensures old(active) == Some(key) ==> ring == old(ring) && voiceSlot == old(voiceSlot) && rooms == old(rooms)
      ensures old(active) != Some(key) ==>
                rooms == map r | r in old(rooms) ::
                  Rekeyed(old(rooms)[r], if overlap then RotatingSlot(epoch) else SCREEN_SLOT)
      ensures old(active) != Some(key) && overlap ==>
                && voiceSlot == RotatingSlot(epoch) == 1 + epoch % 15
                && ring == old(ring)[SCREEN_SLOT := key][voiceSlot := key]
      ensures old(active) != Some(key) && !overlap ==> ring == old(ring)[SCREEN_SLOT := key]
      ensures overlap && old(active) != Some(key) ==>
                forall r :: r in rooms && rooms[r].kind == Voice ==>
                  forall i :: 0 <= i < |rooms[r].senders| ==> rooms[r].senders[i] == voiceSlot
    {
      if active != Some(key) {
        Adopt(key, epoch);
      }
    }

    method Adopt(key: Key, epoch: nat)
      requires Valid() && active != Some(key)
      modifies this
      ensures Valid() && active == Some(key) && adopted == old(adopted) + [Adoption(key, epoch)]
      ensures var slot := if overlap then RotatingSlot(epoch) else SCREEN_SLOT;
              && voiceSlot == slot && ring == old(ring)[SCREEN_SLOT := key][slot := key]
              && rooms == map r | r in old(rooms) :: Rekeyed(old(rooms)[r], slot)
    {
      var slot := if overlap then RotatingSlot(epoch) else SCREEN_SLOT;
      SlotInRing(epoch);
      if overlap {
        RingGrows(ring, adopted, Adoption(key, epoch));
      }
      RekeyedWell(rooms, slot, voiceSlot);
      hide RingMatches, Placed, Rekeyed, RotatingSlot, LastIn;
      PutKey(key, slot);
      RekeyRooms(slot);
      adopted := adopted + [Adoption(key, epoch)];
    }

    method PutKey(key: Key, slot: Slot)
      modifies this`active, this`ring, this`voiceSlot
      ensures active == Some(key) && ring == old(ring)[SCREEN_SLOT := key][slot := key]
      ensures voiceSlot == if slot != SCREEN_SLOT then slot else old(voiceSlot)
    {
      active := Some(key);
      ring := ring[SCREEN_SLOT := key];
      if slot != SCREEN_SLOT {
        ring, voiceSlot := ring[slot := key], slot;
      }
    }

    method RekeyRooms(slot: Slot)
      modifies this`rooms
      ensures rooms == map r | r in old(rooms) :: Rekeyed(old(rooms)[r], slot)
    {
      rooms := map r | r in rooms :: Rekeyed(rooms[r], slot);
    }
  }

  // ---------------------------------------------------------------- who holds what

  /** With an active key, the screen's slot and the voice slot hold it, and so does every sender's slot. */
  lemma EverySenderHoldsTheKey(m: Media, r: RoomId, i: nat)
    requires m.Valid() && m.active.Some?
    ensures Holds(m.ring, SCREEN_SLOT, m.active.value) && Holds(m.ring, m.voiceSlot, m.active.value)
    ensures r in m.rooms ==> m.rooms[r].encrypting
    ensures r in m.rooms && i < |m.rooms[r].senders| ==> Holds(m.ring, m.rooms[r].senders[i], m.active.value)
  {
    if r in m.rooms {
      assert Placed(m.rooms[r], m.voiceSlot);
    }
  }

  /** The last `n` adoptions are for successive epochs. */
  ghost predicate Successive(adopted: seq<Adoption>, n: nat) {
    n <= |adopted| &&
    forall i :: |adopted| - n < i < |adopted| ==> adopted[i].epoch == adopted[i - 1].epoch + 1
  }

  lemma {:induction false} SuccessiveEpochs(adopted: seq<Adoption>, n: nat, i: nat)
    requires Successive(adopted, n) && |adopted| - n <= i < |adopted|
    ensures adopted[|adopted| - 1].epoch == adopted[i].epoch + (|adopted| - 1 - i)
    decreases |adopted| - i
  {
    if i < |adopted| - 1 {
      SuccessiveEpochs(adopted, n, i + 1);
    }
  }

  /** Two epochs share a slot exactly when they agree modulo fifteen; up to fifteen apart, only at the ends. */
  lemma SlotsAgree(a: nat, b: nat)
    ensures RotatingSlot(a) == RotatingSlot(b) <==> a % (RING_SLOTS - 1) == b % (RING_SLOTS - 1)
    ensures a <= b <= a + (RING_SLOTS - 1) ==>
              (RotatingSlot(a) == RotatingSlot(b) <==> b == a || b == a + (RING_SLOTS - 1))
  {
  }

  lemma {:induction false} LastInStays(adopted: seq<Adoption>, i: nat)
    requires i < |adopted|
    requires forall j :: i < j < |adopted| ==> RotatingSlot(adopted[j].epoch) != RotatingSlot(adopted[i].epoch)
    ensures LastIn(adopted, RotatingSlot(adopted[i].epoch)) == Some(adopted[i].key)
  {
    if i < |adopted| - 1 {
      LastInStays(adopted[..|adopted| - 1], i);
    }
  }

  /** The keys of the last fifteen successive epochs all remain, each in its own slot beside the screen's. */
  lemma LastFifteenRemain(m: Media, n: nat, i: nat)
    requires m.Valid() && m.overlap && n <= RING_SLOTS - 1 && Successive(m.adopted, n)
    requires |m.adopted| - n <= i < |m.adopted|
    ensures var s := RotatingSlot(m.adopted[i].epoch);
            SCREEN_SLOT < s < RING_SLOTS && Holds(m.ring, s, m.adopted[i].key)
    ensures forall j :: |m.adopted| - n <= j < |m.adopted| && j != i ==>
              RotatingSlot(m.adopted[j].epoch) != RotatingSlot(m.adopted[i].epoch)
  {
    SuccessiveEpochs(m.adopted, n, i);
    SlotInRing(m.adopted[i].epoch);
    forall j | |m.adopted| - n <= j < |m.adopted| && j != i
      ensures RotatingSlot(m.adopted[j].epoch) != RotatingSlot(m.adopted[i].epoch)
    {
      SuccessiveEpochs(m.adopted, n, j);
      var a, b := m.adopted[i].epoch, m.adopted[j].epoch;
      if a < b { SlotsAgree(a, b); } else { SlotsAgree(b, a); }
    }
    LastInStays(m.adopted, i);
  }

  // ---------------------------------------------------------------- rekeys, up to the highest epoch

  /** The epoch of a rekey: one more, until the counter is full. */
  function NextEpoch(epoch: nat): nat {
    if epoch < U32 - 1 then epoch + 1 else epoch
  }

  /** The last `n` adoptions are a first key and its rekeys, each with a key of its own. */
  ghost predicate Rekeys(adopted: seq<Adoption>, n: nat) {
    && n <= |adopted|
    && (forall i :: |adopted| - n <= i < |adopted| ==> adopted[i].epoch < U32)
    && (forall i :: |adopted| - n < i < |adopted| ==> adopted[i].epoch == NextEpoch(adopted[i - 1].epoch))
    && (forall i, j :: |adopted| - n <= i < j < |adopted| ==> adopted[i].key != adopted[j].key)
  }

  /** Rekeys count up by one, and stay at the highest epoch. */
  lemma {:induction false} EpochAfter(adopted: seq<Adoption>, n: nat, i: nat, j: nat)
    requires Rekeys(adopted, n) && |adopted| - n <= i <= j < |adopted|
    ensures adopted[j].epoch == if adopted[i].epoch + (j - i) < U32 then adopted[i].epoch + (j - i) else U32 - 1
    decreases j - i
  {
    if i < j {
      EpochAfter(adopted, n, i, j - 1);
    }
  }

  /** A slot that is taken again holds a later key. */
  lemma {:induction false} LastInIsLater(adopted: seq<Adoption>, i: nat, j: nat) returns (k: nat)
    requires i < j < |adopted| && RotatingSlot(adopted[j].epoch) == RotatingSlot(adopted[i].epoch)
    ensures i < k < |adopted| && LastIn(adopted, RotatingSlot(adopted[i].epoch)) == Some(adopted[k].key)
  {
    if RotatingSlot(adopted[|adopted| - 1].epoch) == RotatingSlot(adopted[i].epoch) {
      k := |adopted| - 1;
    } else {
      k := LastInIsLater(adopted[..|adopted| - 1], i, j);
    }
  }

  /** A key is still in its epoch's slot if and only if no later key was adopted for an epoch that agrees modulo fifteen. */
  lemma KeyRemainsUntilReplaced(m: Media, i: nat)
    requires m.Valid() && m.overlap && i < |m.adopted|
    requires forall j :: i < j < |m.adopted| ==> m.adopted[j].key != m.adopted[i].key
    ensures Holds(m.ring, RotatingSlot(m.adopted[i].epoch), m.adopted[i].key) <==>
            forall j :: i < j < |m.adopted| ==>
              m.adopted[j].epoch % (RING_SLOTS - 1) != m.adopted[i].epoch % (RING_SLOTS - 1)
  {
    var adopted, s := m.adopted, RotatingSlot(m.adopted[i].epoch);
    SlotInRing(adopted[i].epoch);
    RingOf(m);
    forall j | i < j < |adopted|
      ensures RotatingSlot(adopted[j].epoch) == s <==>
              adopted[j].epoch % (RING_SLOTS - 1) == adopted[i].epoch % (RING_SLOTS - 1)
    {
      SlotsAgree(adopted[j].epoch, adopted[i].epoch);
    }
    hide Media.Valid, LastIn, RotatingSlot;
    if j :| i < j < |adopted| && RotatingSlot(adopted[j].epoch) == s {
      var k := LastInIsLater(adopted, i, j);
    } else {
      LastInStays(adopted, i);
    }
  }

  /**
    For rekeys this means: a key remains if and only if it is the active one, or the epoch has risen since, by less
    than fifteen.  At the highest epoch each rekey replaces the key before it, and no other.
  */
  lemma KeyRemainsExactly(m: Media, n: nat, i: nat)
    requires m.Valid() && m.overlap && Rekeys(m.adopted, n) && |m.adopted| - n <= i < |m.adopted|
    ensures var last := |m.adopted| - 1;
            Holds(m.ring, RotatingSlot(m.adopted[i].epoch), m.adopted[i].key) <==>
            i == last || m.adopted[i].epoch < m.adopted[last].epoch < m.adopted[i].epoch + (RING_SLOTS - 1)
  {
    var adopted, last := m.adopted, |m.adopted| - 1;
    var first := adopted[i].epoch;
    KeyRemainsUntilReplaced(m, i);
    EpochAfter(adopted, n, i, last);
    hide Media.Valid, NextEpoch;
    if i == last || first < adopted[last].epoch < first + (RING_SLOTS - 1) {
      forall j | i < j < |adopted| ensures adopted[j].epoch % (RING_SLOTS - 1) != first % (RING_SLOTS - 1) {
        EpochAfter(adopted, n, i, j);
        SlotsAgree(first, adopted[j].epoch);
      }
    } else {
      var j := if adopted[last].epoch == first then last else i + (RING_SLOTS - 1);
      EpochAfter(adopted, n, i, j);
      SlotsAgree(first, adopted[j].epoch);
    }
  }

  lemma RingOf(m: Media)
    requires m.Valid() && m.overlap
    ensures RingMatches(m.ring, m.adopted)
  {
  }

  /**
    Three keys, the last two for the highest epoch: the second is gone, and the first is still in its slot, as
    `KeyRemainsExactly` says.
  */
  method RekeyAtTheTop(a: Key, b: Key, c: Key, placeholder: Key) returns (m: Media)
    requires a != b && b != c && c != a
    ensures m.Valid() && m.overlap && m.adopted == [Adoption(a, U32 - 2), Adoption(b, U32 - 1), Adoption(c, U32 - 1)]
    ensures Holds(m.ring, RotatingSlot(U32 - 2), a) && !Holds(m.ring, RotatingSlot(U32 - 1), b)
    ensures Holds(m.ring, RotatingSlot(U32 - 1), c)
  {
    m := new Media(true, None, placeholder);
    m.ApplyKey(a, U32 - 2);
    m.ApplyKey(b, U32 - 1);
    m.ApplyKey(c, U32 - 1);
    assert Rekeys(m.adopted, 3);
    hide *;
    KeyRemainsExactly(m, 3, 0);
    KeyRemainsExactly(m, 3, 1);
    KeyRemainsExactly(m, 3, 2);
  }
}
