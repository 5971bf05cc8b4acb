/** The fixed pool of control messages, one thread at a time (jackclient.c). */
module ControlPool {
  import opened Common

  /** A slot of one of the two arrays: empty, or pointing at one message of the supply. */
  type Slot = Option<nat>

  /** How many slots point at message `m`. */
  ghost function Copies(slots: seq<Slot>, m: nat): nat {
    multiset(slots)[Some(m)]
  }

  ghost predicate InSupply(slots: seq<Slot>, size: nat) {
    forall i :: 0 <= i < |slots| && slots[i].Some? ==> slots[i].value < size
  }

  /** 1 if a thread holds message `m`, else 0. */
  ghost function Holds(held: Slot, m: nat): nat {
    if held == Some(m) then 1 else 0
  }

  /** Every message of the supply is in exactly one place: an available slot, a process slot, or held by
      the command thread (`cmd`) or the process thread (`rt`). */
  ghost predicate OnePlace(available: seq<Slot>, process: seq<Slot>, cmd: Slot, rt: Slot) {
    |available| == |process| && InSupply(available, |available|) && InSupply(process, |process|) &&
    forall m: nat :: m < |available| ==> Copies(available, m) + Copies(process, m) + Holds(cmd, m) + Holds(rt, m) == 1
  }

  // ----- a message in hand leaves room for itself

  lemma {:induction false} TwoCopies(slots: seq<Slot>, i: nat, j: nat)
    requires i < j < |slots| && slots[i] == slots[j] && slots[i].Some?
    ensures Copies(slots, slots[i].value) >= 2
  {
    assert slots == slots[..j] + [slots[j]] + slots[j + 1..];
    assert slots[..j][i] == slots[j];
    assert slots[j] in multiset(slots[..j]);
  }

  lemma {:induction false} DistinctBound(ids: seq<nat>, bound: set<nat>)
    requires forall i :: 0 <= i < |ids| ==> ids[i] in bound
    requires forall i, j :: 0 <= i < j < |ids| ==> ids[i] != ids[j]
    ensures |ids| <= |bound|
  {
    if ids != [] {
      var last := ids[|ids| - 1];
      DistinctBound(ids[..|ids| - 1], bound - {last});
    }
  }

  lemma {:induction false} BelowCount(n: nat) returns (below: set<nat>)
    ensures |below| == n && forall m: nat :: m in below <==> m < n
  {
    if n == 0 {
      below := {};
    } else {
      below := BelowCount(n - 1);
      below := below + {n - 1};
    }
  }

  /** When message `m` is in hand, neither array can be full. */
  lemma {:induction false} RoomForMessage(slots: seq<Slot>, m: nat)
    requires m < |slots| && InSupply(slots, |slots|)
    requires Copies(slots, m) == 0 && forall k: nat :: k < |slots| ==> Copies(slots, k) <= 1
    ensures exists i :: 0 <= i < |slots| && slots[i] == None
  {
    if forall i :: 0 <= i < |slots| ==> slots[i].Some? {
      var ids := seq(|slots|, i requires 0 <= i < |slots| => slots[i].value);
      var below := BelowCount(|slots|);
      forall i, j | 0 <= i < j < |ids| ensures ids[i] != ids[j] {
        if slots[i] == slots[j] {
          TwoCopies(slots, i, j);
        }
      }
      forall i | 0 <= i < |ids| ensures ids[i] in below - {m} {
        assert slots[i] in multiset(slots);
      }
      DistinctBound(ids, below - {m});
    }
  }

  /** When every message is in an array, the array is full. */
  lemma {:induction false} AllInArray(slots: seq<Slot>)
    requires forall m: nat :: m < |slots| ==> Copies(slots, m) > 0
    ensures forall i :: 0 <= i < |slots| ==> slots[i].Some?
  {
    forall m: nat | m < |slots| ensures Some(m) in slots {
      assert Copies(slots, m) > 0;
      assert Some(m) in multiset(slots);
    }
    if i :| 0 <= i < |slots| && slots[i] == None {
      var below := BelowCount(|slots|);
      var places := Places(slots, |slots|);
      DistinctBound(places, below - {i});
    }
  }

  /** Where the messages below n are. */
  lemma {:induction false} Places(slots: seq<Slot>, n: nat) returns (places: seq<nat>)
    requires forall m: nat :: m < n ==> Some(m) in slots
    ensures |places| == n && forall m :: 0 <= m < n ==> places[m] < |slots| && slots[places[m]] == Some(m)
    ensures forall l, m :: 0 <= l < m < n ==> places[l] != places[m]
  {
    if n == 0 {
      places := [];
    } else {
      places := Places(slots, n - 1);
      var j :| 0 <= j < |slots| && slots[j] == Some(n - 1);
      places := places + [j];
    }
  }

  /** Whoever holds a message finds an empty slot for it in either array. */
  lemma RoomInArray(slots: seq<Slot>, other: seq<Slot>, cmd: Slot, rt: Slot, m: nat) returns (free: nat)
    requires OnePlace(slots, other, cmd, rt) && m < |slots| && (cmd == Some(m) || rt == Some(m))
    ensures free < |slots| && slots[free] == None
  {
    RoomForMessage(slots, m);
    free :| 0 <= free < |slots| && slots[free] == None;
  }

  lemma CopiesAfter(slots: seq<Slot>, i: nat, s: Slot)
    requires i < |slots|
    ensures forall m: nat ::
              Copies(slots[i := s], m) == Copies(slots, m) - (if slots[i] == Some(m) then 1 else 0) + (if s == Some(m) then 1 else 0)
  {
    assert slots == slots[..i] + [slots[i]] + slots[i + 1..];
    assert slots[i := s] == slots[..i] + [s] + slots[i + 1..];
  }

  /** The two arrays, and the two threads, play the same part. */
  lemma EitherSide(available: seq<Slot>, process: seq<Slot>, cmd: Slot, rt: Slot)
    ensures OnePlace(available, process, cmd, rt) <==> OnePlace(process, available, cmd, rt)
    ensures OnePlace(available, process, cmd, rt) <==> OnePlace(available, process, rt, cmd)
    ensures OnePlace(available, process, cmd, rt) <==> OnePlace(process, available, rt, cmd)
  {
  }

  /** Taking a message out of a slot keeps it in one place. */
  lemma TakeKeepsOnePlace(from: seq<Slot>, other: seq<Slot>, held: Slot, i: nat, m: nat)
    requires OnePlace(from, other, None, held) && i < |from| && from[i] == Some(m)
    ensures m < |from| && OnePlace(from[i := None], other, Some(m), held)
  {
    hide Copies;
    CopiesAfter(from, i, None);
  }

  /** Putting a held message into an empty slot keeps it in one place. */
  lemma PutKeepsOnePlace(to: seq<Slot>, other: seq<Slot>, held: Slot, i: nat, m: nat)
    requires OnePlace(to, other, Some(m), held) && i < |to| && to[i] == None && m < |to|
    ensures OnePlace(to[i := Some(m)], other, None, held)
  {
    hide Copies;
    CopiesAfter(to, i, Some(m));
  }

  /** Slot `i` is the first one that is full (or, for `full` false, the first one that is empty). */
  ghost predicate IsFirst(slots: seq<Slot>, i: nat, full: bool) {
    i < |slots| && slots[i].Some? == full && forall j :: 0 <= j < i ==> slots[j].Some? != full
  }

  /** The messages waiting in the process array, in the order in which a cycle sends them. */
  function Waiting(process: seq<Slot>, supply: seq<Bytes>): seq<Bytes>
    requires InSupply(process, |supply|)
  {
    if process == [] then [] else
    Waiting(process[..|process| - 1], supply) +
    (match process[|process| - 1] case None => [] case Some(m) => [supply[m]])
  }

  lemma {:induction false} NothingWaiting(process: seq<Slot>, supply: seq<Bytes>)
    requires forall j :: 0 <= j < |process| ==> process[j] == None
    ensures Waiting(process, supply) == []
  {
    if process != [] {
      NothingWaiting(process[..|process| - 1], supply);
    }
  }

  /** Taking the first queued message leaves the others waiting in the same order. */
  lemma {:induction false} TakeFirstWaiting(process: seq<Slot>, supply: seq<Bytes>, i: nat, m: nat)
    requires InSupply(process, |supply|) && i < |process| && process[i] == Some(m)
    requires forall j :: 0 <= j < i ==> process[j] == None
    ensures Waiting(process, supply) == [supply[m]] + Waiting(process[i := None], supply)
    decreases |process|
  {
    var front, after := process[..|process| - 1], process[i := None];
    if i == |process| - 1 {
      NothingWaiting(front, supply);
      assert after[..|process| - 1] == front;
    } else {
      TakeFirstWaiting(front, supply, i, m);
      assert after[..|process| - 1] == front[i := None];
    }
  }

  class Pool {
    const available: array<Slot>
    const process: array<Slot>
    const supply: array<Bytes>
    var processIndex: nat

    /** The shape of the pool, given what the two threads hold. */
    ghost predicate Valid(cmd: Slot, rt: Slot)
      reads available, process
      ensures Valid(cmd, rt) ==> InSupply(process[..], supply.Length)
    {
      available != process && available.Length == process.Length == supply.Length > 0 &&
      OnePlace(available[..], process[..], cmd, rt)
    }

    /** jackclient_cm_setup: every message starts in the available array. */
    constructor (size: nat)
      requires size > 0
      ensures Valid(None, None) && fresh(available) && fresh(process) && fresh(supply)
      ensures supply.Length == size && forall i :: 0 <= i < size ==> process[i] == None
    {
      available := new Slot[size](i => if i < 0 then None else Some(i));
      process := new Slot[size](i => None);
      supply := new Bytes[size](i => []);
      processIndex := 0;
      new;
      forall m: nat | m < size ensures Copies(available[..], m) == 1 {
        InitialCopies(available[..], m);
      }
      forall m: nat ensures Copies(process[..], m) == 0 {
        assert forall s :: s in process[..] ==> s == None;
      }
    }

    /** Take the first available message, if there is one. */
    method Reserve(ghost rt: Slot) returns (result: Slot)
      requires Valid(None, rt)
      modifies available
      ensures result.None? ==> available[..] == old(available[..]) && forall i :: 0 <= i < available.Length ==> available[i] == None
      ensures Valid(result, rt) && (result.Some? ==> result.value < supply.Length)
      ensures result.Some? ==>
                exists i: nat :: IsFirst(old(available[..]), i, true) && old(available[..])[i] == result && available[..] == old(available[..])[i := None]
    {
      hide OnePlace;
      var i := 0;
      while i < available.Length
        invariant 0 <= i <= available.Length
        invariant available[..] == old(available[..])
        invariant forall j :: 0 <= j < i ==> available[j] == None
      {
        if available[i] != None {
          result := available[i];
          TakeKeepsOnePlace(available[..], process[..], rt, i, result.value);
          assert IsFirst(available[..], i, true);
          available[i] := None;
          assert available[..] == old(available[..])[i := None];
          return;
        }
        i := i + 1;
      }
      return None;
    }

    /** Put a reserved message into the first empty process slot; there always is one. */
    method Queue(m: nat, ghost rt: Slot)
      requires m < supply.Length && Valid(Some(m), rt)
      modifies process
      ensures Valid(None, rt)
      ensures exists i: nat :: IsFirst(old(process[..]), i, false) && process[..] == old(process[..])[i := Some(m)]
    {
      hide OnePlace;
      EitherSide(available[..], process[..], Some(m), rt);
      ghost var free := RoomInArray(process[..], available[..], Some(m), rt, m);
      var i := 0;
      while i < process.Length
        invariant 0 <= i <= free
        invariant process[..] == old(process[..])
        invariant forall j :: 0 <= j < i ==> process[j] != None
      {
        if process[i] == None {
          PutKeepsOnePlace(process[..], available[..], rt, i, m);
          EitherSide(process[..][i := Some(m)], available[..], None, rt);
          assert IsFirst(process[..], i, false);
          process[i] := Some(m);
          assert process[..] == old(process[..])[i := Some(m)];
          return;
        }
        i := i + 1;
      }
    }

    /** Give a sent message back to the first empty available slot; there always is one. */
    method Return(m: nat, ghost cmd: Slot)
      requires m < supply.Length && Valid(cmd, Some(m))
      modifies available
      ensures Valid(cmd, None)
      ensures exists i: nat :: IsFirst(old(available[..]), i, false) && available[..] == old(available[..])[i := Some(m)]
    {
      hide OnePlace;
      EitherSide(available[..], process[..], cmd, Some(m));
      ghost var free := RoomInArray(available[..], process[..], cmd, Some(m), m);
      var i := 0;
      while i < available.Length
        invariant 0 <= i <= free
        invariant available[..] == old(available[..])
        invariant forall j :: 0 <= j < i ==> available[j] != None
      {
        if available[i] == None {
          PutKeepsOnePlace(available[..], process[..], cmd, i, m);
          EitherSide(available[..][i := Some(m)], process[..], None, cmd);
          assert IsFirst(available[..], i, false);
          available[i] := Some(m);
          assert available[..] == old(available[..])[i := Some(m)];
          return;
        }
        i := i + 1;
      }
    }

    /** Start handling the queued messages of one cycle. */
    method ProcessInit()
      modifies this`processIndex
      ensures processIndex == 0
    {
      processIndex := 0;
    }

    /** The next queued message, in slot order; the slots passed over become empty. */
    method ProcessNext(ghost cmd: Slot) returns (result: Slot)
      requires Valid(cmd, None) && processIndex <= process.Length
      requires forall j :: 0 <= j < processIndex ==> process[j] == None
      modifies this`processIndex, process
      ensures old(processIndex) <= processIndex <= process.Length
      ensures forall j :: 0 <= j < processIndex ==> process[j] == None
      ensures result.None? ==> processIndex == process.Length
      ensures result.Some? ==> result.value < supply.Length && processIndex > old(processIndex)
      ensures Valid(cmd, result)
      ensures Waiting(old(process[..]), supply[..]) == (if result.Some? then [supply[result.value]] else []) + Waiting(process[..], supply[..])
    {
      hide OnePlace, Waiting;
      result := None;
      while processIndex < process.Length
        invariant old(processIndex) <= processIndex <= process.Length
        invariant result.None? && process[..] == old(process[..])
        invariant forall j :: 0 <= j < processIndex ==> process[j] == None
      {
        if process[processIndex] != None {
          result := process[processIndex];
          EitherSide(available[..], process[..], cmd, None);
          TakeKeepsOnePlace(process[..], available[..], cmd, processIndex, result.value);
          EitherSide(process[..][processIndex := None], available[..], result, cmd);
          TakeFirstWaiting(process[..], supply[..], processIndex, result.value);
          process[processIndex] := None;
          assert process[..] == old(process[..])[processIndex := None];
        }
        processIndex := processIndex + 1;
        if result != None {
          return;
        }
      }
      NothingWaiting(process[..], supply[..]);
    }
  }

  lemma {:induction false} InitialCopies(slots: seq<Slot>, m: nat)
    requires m < |slots| && forall i :: 0 <= i < |slots| ==> slots[i] == Some(i)
    ensures Copies(slots, m) == 1
  {
    assert slots == slots[..m] + [Some(m)] + slots[m + 1..];
    assert Some(m) !in slots[..m] && Some(m) !in slots[m + 1..];
  }
}
