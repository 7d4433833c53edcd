// The player's ring of subpictures: the subtitle thread fills slots and the refresh side frees
// them, each in several steps of which only the changes of the size are under the lock.
module SubpictureRing {

  const SLOTS: nat := 4

  // Where the filling thread is: about to wait for room; decoding into its slot; past its
  // increment of the write index, the size not yet counted up; gone.
  datatype Writer = Waiting | Filling | Counting | Gone

  // Where the refresh side is: idle; at one slot, before it sees whether there is a second; looking
  // at one slot or two; past its increment of the read
  // index, the size not yet counted down; emptying the ring under the lock, before or after an
  // increment.
  datatype Refresher = Idle | Glancing | Looking(second: bool) | Freed | Draining | DrainFreed

  // Ring fields, and for the proof: how many subpictures were published and freed in all, and
  // what they were.
  datatype Ring = Ring(slots: seq<int>, rindex: int, windex: int, size: int, changed: bool, writer: Writer,
                       refresher: Refresher, published: seq<int>, freed: seq<int>)

  datatype Event =
    | SeeRoom              // subtitle_thread: size below 4 under the lock
    | Abandon              // subtitle_thread: aborted
    | Write(picture: int)  // the decoder writes into the slot
    | Skip                 // no subtitle came of the packet
    | AdvanceWrite         // ++windex
    | CountUp              // size++ under the lock
    | Restart              // a subtitle thread begins
    | ChangeStream         // the user picks another stream
    | Look                 // video_refresh_timer: size > 0
    | LookFurther          // size > 1, or not
    | Keep                 // the subpicture stays
    | FreeAndAdvance       // free_subpicture and ++rindex
    | CountDown            // size-- under the lock
    | BeginDrain           // the stream changed: takes the lock
    | DrainFree            // free_subpicture and ++rindex
    | DrainCount           // size--
    | EndDrain             // size is 0: releases the lock

  // While the ring is being emptied the lock is held.
  predicate Locked(s: Ring) { s.refresher == Draining || s.refresher == DrainFreed }

  predicate Enabled(s: Ring, e: Event) {
    && |s.slots| == SLOTS && 0 <= s.windex < SLOTS && 0 <= s.rindex < SLOTS
    && match e
       case SeeRoom => s.writer == Waiting && s.size < SLOTS && !Locked(s)
       case Abandon => s.writer == Waiting && !Locked(s)
       case Write(_) => s.writer == Filling
       case Skip => s.writer == Filling
       case AdvanceWrite => s.writer == Filling
       case CountUp => s.writer == Counting && !Locked(s)
       case Restart => s.writer == Gone
       case ChangeStream => s.refresher == Idle
       case Look => s.refresher == Idle && !s.changed && s.size > 0
       case LookFurther => s.refresher == Glancing
       case Keep => s.refresher.Looking?
       case FreeAndAdvance => s.refresher.Looking?
       case CountDown => s.refresher == Freed
       case BeginDrain => s.refresher == Idle && s.changed
       case DrainFree => s.refresher == Draining && s.size != 0
       case DrainCount => s.refresher == DrainFreed
       case EndDrain => s.refresher == Draining && s.size == 0
  }

  function Next(i: int): int { if i + 1 == SLOTS then 0 else i + 1 }

  function Do(s: Ring, e: Event): Ring
    requires Enabled(s, e)
  {
    match e
    case SeeRoom => s.(writer := Filling)
    case Abandon => s.(writer := Gone)
    case Write(picture) => s.(slots := s.slots[s.windex := picture])
    case Skip => s.(writer := Waiting)
    case AdvanceWrite => s.(writer := Counting, windex := Next(s.windex),
                              published := s.published + [s.slots[s.windex]])
    case CountUp => s.(writer := Waiting, size := s.size + 1)
    case Restart => s.(writer := Waiting)
    case ChangeStream => s.(changed := true)
    case Look => s.(refresher := Glancing)
    case LookFurther => s.(refresher := Looking(s.size > 1))
    case Keep => s.(refresher := Idle)
    case FreeAndAdvance => s.(refresher := Freed, rindex := Next(s.rindex), freed := s.freed + [s.slots[s.rindex]])
    case CountDown => s.(refresher := Idle, size := s.size - 1)
    case BeginDrain => s.(refresher := Draining)
    case DrainFree => s.(refresher := DrainFreed, rindex := Next(s.rindex), freed := s.freed + [s.slots[s.rindex]])
    case DrainCount => s.(refresher := Draining, size := s.size - 1)
    case EndDrain => s.(refresher := Idle, changed := false)
  }

  ghost predicate Initial(s: Ring) {
    && |s.slots| == SLOTS && s.rindex == s.windex == s.size == 0 && !s.changed
    && s.writer == Waiting && s.refresher == Idle
    && s.published == s.freed == []
  }

  ghost predicate IsRun(run: seq<Ring>, events: seq<Event>) {
    && |run| == |events| + 1 && Initial(run[0])
    && forall i :: 0 <= i < |events| ==> Enabled(run[i], events[i]) && run[i + 1] == Do(run[i], events[i])
  }

  // ---- what every run keeps ----

  function Ahead(w: Writer): int { if w == Counting then 1 else 0 }

  function Behind(r: Refresher): int { if r == Freed || r == DrainFreed then 1 else 0 }

  // Subpictures in the ring, counted or not.
  function Held(s: Ring): int { |s.published| - |s.freed| }

  // Slots the refresh side may read or free in its present step.
  ghost predicate MayTouch(s: Ring, slot: int) {
    match s.refresher
    case Glancing => slot == s.rindex
    case Looking(second) => slot == s.rindex || (second && slot == Next(s.rindex))
    case Draining => s.size > 0 && slot == s.rindex
    case Idle => s.size > 0 && (slot == s.rindex || (s.size > 1 && slot == Next(s.rindex)))
    case _ => false
  }

  ghost predicate Keeps(s: Ring) {
    && |s.slots| == SLOTS && s.windex == |s.published| % SLOTS && s.rindex == |s.freed| % SLOTS
    && |s.freed| <= |s.published|
    && s.size == Held(s) - Ahead(s.writer) + Behind(s.refresher) && 0 <= s.size <= SLOTS
    && Held(s) + Behind(s.refresher) <= SLOTS
    && (s.writer == Filling ==> Held(s) + Behind(s.refresher) < SLOTS)
    && (s.refresher.Looking? ==> s.size > (if s.refresher.second then 1 else 0))
    && (s.refresher == Glancing ==> s.size > 0)
    && (s.refresher == Freed || s.refresher == DrainFreed ==> s.size > 0)
    && (s.freed <= s.published)
    && forall k :: |s.freed| <= k < |s.published| ==> s.slots[k % SLOTS] == s.published[k]
  }

  lemma Wraps(n: nat)
    ensures Next(n % SLOTS) == (n + 1) % SLOTS
  {
  }

  // Two of four places in a row are different.
  lemma PlacesDiffer(a: nat, b: nat)
    requires a < b < a + SLOTS
    ensures a % SLOTS != b % SLOTS
  {
  }

  lemma WriteKeeps(s: Ring, picture: int)
    requires Keeps(s) && Enabled(s, Write(picture))
    ensures Keeps(Do(s, Write(picture)))
  {
    forall k | |s.freed| <= k < |s.published|
      ensures k % SLOTS != s.windex
    {
      PlacesDiffer(k, |s.published|);
    }
  }

  lemma AdvanceWriteKeeps(s: Ring)
    requires Keeps(s) && Enabled(s, AdvanceWrite)
    ensures Keeps(Do(s, AdvanceWrite))
  {
    Wraps(|s.published|);
  }

  lemma FreeKeeps(s: Ring, e: Event)
    requires Keeps(s) && Enabled(s, e) && (e == FreeAndAdvance || e == DrainFree)
    ensures Keeps(Do(s, e))
  {
    Wraps(|s.freed|);
    assert s.slots[s.rindex] == s.published[|s.freed|];
  }

  lemma StepKeeps(s: Ring, e: Event)
    requires Keeps(s) && Enabled(s, e)
    ensures Keeps(Do(s, e))
  {
    match e
    case Write(picture) => WriteKeeps(s, picture);
    case AdvanceWrite => AdvanceWriteKeeps(s);
    case FreeAndAdvance => FreeKeeps(s, e);
    case DrainFree => FreeKeeps(s, e);
    case _ =>
  }

  lemma {:induction false} RunKeeps(run: seq<Ring>, events: seq<Event>, n: nat)
    requires IsRun(run, events) && n < |run|
    ensures Keeps(run[n])
  {
    if n > 0 {
      RunKeeps(run, events, n - 1);
      StepKeeps(run[n - 1], events[n - 1]);
    }
  }

  // In every run, at every moment: the slot being filled is none that the refresh side may read
  // or free; subpictures leave in the order they came, unaltered; and when neither side is in the
  // middle of a change the indices and the size agree.
  lemma RingIsSafe(run: seq<Ring>, events: seq<Event>, n: nat)
    requires IsRun(run, events) && n < |run|
    ensures var s := run[n];
      && (s.writer == Filling ==> !MayTouch(s, s.windex))
      && s.freed <= s.published
      && 0 <= s.size <= SLOTS
      && (s.writer != Counting && Behind(s.refresher) == 0 ==> s.windex == (s.rindex + s.size) % SLOTS)
  {
    RunKeeps(run, events, n);
    var s := run[n];
    var f, p := |s.freed|, |s.published|;
    Wraps(f);
    if s.writer == Filling && p > f {
      PlacesDiffer(f, p);
      if p > f + 1 {
        PlacesDiffer(f + 1, p);
      }
    }
    if s.writer != Counting && Behind(s.refresher) == 0 {
      assert p == f + s.size;
      SumWraps(f, s.size);
    }
  }

  lemma SumWraps(f: nat, size: nat)
    ensures (f % SLOTS + size) % SLOTS == (f + size) % SLOTS
  {
  }

  // ---- the fields that the threads share ----

  // The ring in the player's state; each method is one step of a thread.
  class VideoState {
    const subpq: array<int>
    var subpqRindex: int
    var subpqWindex: int
    var subpqSize: int
    var subtitleStreamChanged: bool
    ghost var writer: Writer
    ghost var refresher: Refresher
    ghost var published: seq<int>
    ghost var freed: seq<int>

    ghost function Now(): Ring
      reads this, subpq
    {
      Ring(subpq[..], subpqRindex, subpqWindex, subpqSize, subtitleStreamChanged, writer, refresher, published, freed)
    }

    constructor ()
      ensures Initial(Now()) && Keeps(Now()) && fresh(subpq)
    {
      subpq := new int[SLOTS];
      subpqRindex, subpqWindex, subpqSize, subtitleStreamChanged := 0, 0, 0, false;
      writer, refresher, published, freed := Waiting, Idle, [], [];
    }

    // subtitle_thread, the lock held: whether there is room.
    method TryRoom() returns (room: bool)
      requires Keeps(Now()) && writer == Waiting && !Locked(Now())
      modifies this`writer
      ensures room <==> Enabled(old(Now()), SeeRoom)
      ensures Now() == if room then Do(old(Now()), SeeRoom) else old(Now())
      ensures Keeps(Now())
    {
      StepKeepsIf(Now(), SeeRoom);
      room := subpqSize < SLOTS;
      if room {
        writer := Filling;
      }
    }

    // The decoder writes into the slot at the write index.
    method WriteSlot(picture: int)
      requires Keeps(Now()) && writer == Filling
      modifies subpq
      ensures Now() == Do(old(Now()), Write(picture)) && Keeps(Now())
    {
      StepKeeps(Now(), Write(picture));
      subpq[subpqWindex] := picture;
    }

    method AdvanceWriteIndex()
      requires Keeps(Now()) && writer == Filling
      modifies this`subpqWindex, this`writer, this`published
      ensures Now() == Do(old(Now()), AdvanceWrite) && Keeps(Now())
    {
      StepKeeps(Now(), AdvanceWrite);
      published := published + [subpq[subpqWindex]];
      subpqWindex := subpqWindex + 1;
      if subpqWindex == SLOTS {
        subpqWindex := 0;
      }
      writer := Counting;
    }

    // The lock held.
    method IncreaseSize()
      requires Keeps(Now()) && writer == Counting && !Locked(Now())
      modifies this`subpqSize, this`writer
      ensures Now() == Do(old(Now()), CountUp) && Keeps(Now())
    {
      StepKeeps(Now(), CountUp);
      subpqSize := subpqSize + 1;
      writer := Waiting;
    }

    // video_refresh_timer, no lock held: the oldest subpicture, if there is one.
    method PeekOldest() returns (sp: int)
      requires Keeps(Now()) && refresher == Idle && !subtitleStreamChanged
      modifies this`refresher
      ensures Now() == (if old(subpqSize) > 0 then Do(old(Now()), Look) else old(Now())) && Keeps(Now())
      ensures if old(subpqSize) > 0 then MayTouch(Now(), sp) && subpq[sp] == published[|freed|] else sp == -1
    {
      sp := -1;
      StepKeepsIf(Now(), Look);
      if subpqSize > 0 {
        refresher := Glancing;
        sp := subpqRindex;
      }
    }

    // The size is looked at again, and the writer may have counted up since: the one after the
    // oldest, if there is one now.
    method PeekSecond() returns (sp2: int)
      requires Keeps(Now()) && refresher == Glancing
      modifies this`refresher
      ensures Now() == Do(old(Now()), LookFurther) && Keeps(Now()) && refresher == Looking(subpqSize > 1)
      ensures if subpqSize > 1 then MayTouch(Now(), sp2) && subpq[sp2] == published[|freed| + 1] else sp2 == -1
    {
      sp2 := -1;
      StepKeeps(Now(), LookFurther);
      if subpqSize > 1 {
        sp2 := (subpqRindex + 1) % SLOTS;
        Wraps(|freed|);
      }
      refresher := Looking(subpqSize > 1);
    }

    method FreeOldest()
      requires Keeps(Now()) && refresher.Looking?
      modifies this`subpqRindex, this`refresher, this`freed
      ensures Now() == Do(old(Now()), FreeAndAdvance) && Keeps(Now())
    {
      StepKeeps(Now(), FreeAndAdvance);
      freed := freed + [subpq[subpqRindex]];
      subpqRindex := subpqRindex + 1;
      if subpqRindex == SLOTS {
        subpqRindex := 0;
      }
      refresher := Freed;
    }

    // The lock held.
    method DecreaseSize()
      requires Keeps(Now()) && refresher == Freed
      modifies this`subpqSize, this`refresher
      ensures Now() == Do(old(Now()), CountDown) && Keeps(Now())
    {
      StepKeeps(Now(), CountDown);
      subpqSize := subpqSize - 1;
      refresher := Idle;
    }

    method DrainOldest()
      requires Keeps(Now()) && refresher == Draining && subpqSize != 0
      modifies this`subpqRindex, this`refresher, this`freed
      ensures Now() == Do(old(Now()), DrainFree) && Keeps(Now())
    {
      StepKeeps(Now(), DrainFree);
      freed := freed + [subpq[subpqRindex]];
      subpqRindex := subpqRindex + 1;
      if subpqRindex == SLOTS {
        subpqRindex := 0;
      }
      refresher := DrainFreed;
    }

    // After a change of stream, the lock held all the while: all that was counted leaves.
    method Drain()
      requires Keeps(Now()) && refresher == Idle && subtitleStreamChanged
      modifies this`subpqRindex, this`subpqSize, this`subtitleStreamChanged, this`refresher, this`freed
      ensures Keeps(Now()) && subpqSize == 0 && !subtitleStreamChanged && refresher == Idle
      ensures freed == published[..|published| - Ahead(writer)]
    {
      StepKeeps(Now(), BeginDrain);
      refresher := Draining;
      while subpqSize != 0
        invariant Keeps(Now()) && refresher == Draining
        decreases subpqSize
      {
        DrainOldest();
        StepKeeps(Now(), DrainCount);
        subpqSize := subpqSize - 1;
        refresher := Draining;
      }
      StepKeeps(Now(), EndDrain);
      subtitleStreamChanged := false;
      refresher := Idle;
    }
  }

  lemma StepKeepsIf(s: Ring, e: Event)
    requires Keeps(s)
    ensures Enabled(s, e) ==> Keeps(Do(s, e))
  {
    if Enabled(s, e) {
      StepKeeps(s, e);
    }
  }
}
