/** source/error.cpp: the bounded stack of non-critical errors reported to the host. */
module Errors {
  datatype Error =
    | NoError
    | BadParam
    | BadParamSize
    | BadUserCodeLoad
    | BadUserCodeSize
    | NotIdle
    | ConversionAborted
    | NotRunning

  const MAX_ERROR_QUEUE_SIZE := 8

  /** What `add` does to the errors retained, oldest first. */
  function Push(errors: seq<Error>, error: Error): seq<Error> {
    if |errors| < MAX_ERROR_QUEUE_SIZE then errors + [error] else errors
  }

  /** What `pop` returns. */
  function Top(errors: seq<Error>): Error {
    if errors == [] then NoError else errors[|errors| - 1]
  }

  /** What `pop` leaves. */
  function Popped(errors: seq<Error>): seq<Error> {
    if errors == [] then [] else errors[..|errors| - 1]
  }

  datatype Op = Add(error: Error) | Pop

  /** Everything a history of calls leaves behind: the errors retained, those `add` accepted
      and those `pop` handed to the host, in order. */
  datatype History = History(retained: seq<Error>, accepted: seq<Error>, reported: seq<Error>)

  const FRESH := History([], [], [])

  function Apply(h: History, op: Op): History {
    match op
    case Add(error) =>
      History(Push(h.retained, error),
              if |h.retained| < MAX_ERROR_QUEUE_SIZE then h.accepted + [error] else h.accepted,
              h.reported)
    case Pop =>
      History(Popped(h.retained), h.accepted,
              if h.retained == [] then h.reported else h.reported + [Top(h.retained)])
  }

  function Replay(h: History, ops: seq<Op>): History
    decreases |ops|
  {
    if ops == [] then h else Replay(Apply(h, ops[0]), ops[1..])
  }

  ghost predicate Balanced(h: History) {
    && |h.retained| <= MAX_ERROR_QUEUE_SIZE
    && multiset(h.accepted) == multiset(h.reported) + multiset(h.retained)
  }

  lemma ApplyKeepsBalance(h: History, op: Op)
    requires Balanced(h)
    ensures Balanced(Apply(h, op))
  {
    if op.Pop? && h.retained != [] {
      assert h.retained == Popped(h.retained) + [Top(h.retained)];
    }
  }

  /** Over every history of adds and pops no accepted error is lost, duplicated or invented:
      accepted == reported + retained, and at most eight are retained. */
  lemma {:induction false} Conservation(h: History, ops: seq<Op>)
    requires Balanced(h)
    ensures Balanced(Replay(h, ops))
    decreases |ops|
  {
    if ops != [] {
      ApplyKeepsBalance(h, ops[0]);
      Conservation(Apply(h, ops[0]), ops[1..]);
    }
  }

  /** As long as no caller adds `NoError`, an error is pending exactly when the next pop
      reports one. */
  lemma {:induction false} PendingIffReported(h: History, ops: seq<Op>)
    requires NoError !in h.retained
    requires Add(NoError) !in ops
    ensures Replay(h, ops).retained != [] <==> Top(Replay(h, ops).retained) != NoError
    decreases |ops|
  {
    if ops != [] {
      assert ops[0] in ops;
      PendingIffReported(Apply(h, ops[0]), ops[1..]);
    }
  }

  /** Add every one of `errors` in order, then pop as many times. */
  function AddsThenPops(errors: seq<Error>): seq<Op> {
    if errors == [] then [] else [Add(errors[0])] + AddsThenPops(errors[1..]) + [Pop]
  }

  function Reversed(errors: seq<Error>): seq<Error> {
    if errors == [] then [] else Reversed(errors[1..]) + [errors[0]]
  }

  /** Pops undo adds: errors added to a stack with room for them are reported newest first, and
      the stack is then as it was. */
  lemma {:induction false} PopsUndoAdds(h: History, errors: seq<Error>)
    requires |h.retained| + |errors| <= MAX_ERROR_QUEUE_SIZE
    ensures var r := Replay(h, AddsThenPops(errors));
            r.retained == h.retained && r.reported == h.reported + Reversed(errors)
    decreases |errors|
  {
    if errors != [] {
      var h1 := Apply(h, Add(errors[0]));
      var inner := AddsThenPops(errors[1..]);
      PopsUndoAdds(h1, errors[1..]);
      ReplaySnoc(h1, inner, Pop);
      assert AddsThenPops(errors)[1..] == inner + [Pop];
    }
  }

  lemma {:induction false} ReplaySnoc(h: History, ops: seq<Op>, last: Op)
    ensures Replay(h, ops + [last]) == Apply(Replay(h, ops), last)
    decreases |ops|
  {
    if ops == [] {
      assert (ops + [last])[1..] == [];
    } else {
      assert (ops + [last])[1..] == ops[1..] + [last];
      ReplaySnoc(Apply(h, ops[0]), ops[1..], last);
    }
  }

  // ----- Calls that an interrupt can break into -----

  /** An accepted error; numbering tells equal errors apart. */
  datatype Entry = Entry(error: Error, number: nat)

  /** How far a command's call is: it has loaded the index, or stored it and yet to write or read its slot.
      `due` is what the slot held when the index was stored. */
  datatype Call = NoCall | Loaded(op: Op, at: nat) | Adding(error: Error, slot: nat) | Popping(slot: nat, due: Entry)

  /** A command's call loads the index, once because it is not volatile, stores it, and only then writes or
      reads the slot, through `operator[]`. `abort` adds in an interrupt, between any two of these. */
  datatype Access = Load(op: Op) | StoreIndex | TouchSlot | Interrupt(error: Error)

  /** The eight slots and the index; the call in progress; the errors that were accepted and those that were
      reported. `lost` are those no pop will ever report, and `duplicated` those reported while they stayed. */
  datatype Shared = Shared(
    queue: seq<Entry>,
    index: nat,
    call: Call,
    accepted: seq<Entry>,
    reported: seq<Entry>,
    lost: seq<Entry>,
    duplicated: seq<Entry>)

  /** Between load and store the index only grows, and between store and read no slot below it changes. */
  predicate Coherent(s: Shared) {
    && |s.queue| == MAX_ERROR_QUEUE_SIZE && s.index <= MAX_ERROR_QUEUE_SIZE
    && match s.call
       case NoCall => true
       case Loaded(op, at) => at <= s.index && (if op.Pop? then at > 0 else at < MAX_ERROR_QUEUE_SIZE)
       case Adding(_, slot) => slot < s.index
       case Popping(slot, due) =>
         slot <= s.index && slot < MAX_ERROR_QUEUE_SIZE && (slot == s.index ==> s.queue[slot] == due)
  }

  /** The errors below the index, without the slot an `add` has yet to write. */
  function Live(s: Shared): seq<Entry>
    requires Coherent(s)
  {
    if s.call.Adding? then s.queue[..s.call.slot] + s.queue[s.call.slot + 1..s.index] else s.queue[..s.index]
  }

  /** The error a `pop` has taken below the index and has yet to read. */
  function OnTheWay(s: Shared): seq<Entry> {
    if s.call.Popping? then [s.call.due] else []
  }

  /** A call with nothing to do ends at its load. */
  function Loads(s: Shared, op: Op): (r: Shared)
    requires Coherent(s)
    ensures Coherent(r)
  {
    if s.call.NoCall? && (if op.Pop? then s.index > 0 else s.index < MAX_ERROR_QUEUE_SIZE) then
      s.(call := Loaded(op, s.index))
    else s
  }

  function StoresIndex(s: Shared): (r: Shared)
    requires Coherent(s)
    ensures Coherent(r)
  {
    match s.call
    case Loaded(Add(error), i) =>
      s.(index := i + 1, call := Adding(error, i), lost := s.lost + s.queue[i..s.index])
    case Loaded(Pop, i) =>
      s.(index := i - 1, call := Popping(i - 1, s.queue[i - 1]), lost := s.lost + s.queue[i..s.index])
    case _ => s
  }

  function TouchesSlot(s: Shared): (r: Shared)
    requires Coherent(s)
    ensures Coherent(r)
  {
    match s.call
    case Adding(error, slot) =>
      var entry := Entry(error, |s.accepted|);
      s.(queue := s.queue[slot := entry], call := NoCall, accepted := s.accepted + [entry])
    case Popping(slot, due) =>
      var r := s.(call := NoCall, reported := s.reported + [s.queue[slot]]);
      if slot == s.index then r
      else r.(lost := s.lost + [due], duplicated := s.duplicated + [s.queue[slot]])
    case _ => s
  }

  function Interrupted(s: Shared, error: Error): (r: Shared)
    requires Coherent(s)
    ensures Coherent(r)
  {
    if s.index < MAX_ERROR_QUEUE_SIZE then
      var entry := Entry(error, |s.accepted|);
      s.(queue := s.queue[s.index := entry], index := s.index + 1, accepted := s.accepted + [entry])
    else s
  }

  function Perform(s: Shared, access: Access): (r: Shared)
    requires Coherent(s)
    ensures Coherent(r)
  {
    match access
    case Load(op) => Loads(s, op)
    case StoreIndex => StoresIndex(s)
    case TouchSlot => TouchesSlot(s)
    case Interrupt(error) => Interrupted(s, error)
  }

  function PerformAll(s: Shared, accesses: seq<Access>): (r: Shared)
    requires Coherent(s)
    ensures Coherent(r)
    decreases |accesses|
  {
    if accesses == [] then s else PerformAll(Perform(s, accesses[0]), accesses[1..])
  }

  /** An interrupt added an error between load and store of the index, or between that store and the read of
      a `pop`. */
  predicate Disturbed(s: Shared, access: Access) {
    || (access.StoreIndex? && s.call.Loaded? && s.call.at < s.index)
    || (access.TouchSlot? && s.call.Popping? && s.call.slot < s.index)
  }

  predicate Undisturbed(s: Shared, accesses: seq<Access>)
    requires Coherent(s)
    decreases |accesses|
  {
    accesses == [] || (!Disturbed(s, accesses[0]) && Undisturbed(Perform(s, accesses[0]), accesses[1..]))
  }

  // ----- Accounting -----

  ghost function Everywhere(s: Shared): multiset<Entry>
    requires Coherent(s)
  {
    multiset(s.reported) + multiset(Live(s)) + multiset(OnTheWay(s))
  }

  ghost predicate Accounted(s: Shared)
    requires Coherent(s)
  {
    multiset(s.accepted) + multiset(s.duplicated) == Everywhere(s) + multiset(s.lost)
  }

  /** Every accepted error is reported, or retained, or on its way, and once. */
  ghost predicate Conserved(s: Shared)
    requires Coherent(s)
  {
    multiset(s.accepted) == Everywhere(s)
  }

  ghost predicate Numbered(accepted: seq<Entry>) {
    forall k :: 0 <= k < |accepted| ==> accepted[k].number == k
  }

  lemma Split(queue: seq<Entry>, lo: nat, hi: nat)
    requires lo <= hi <= |queue|
    ensures multiset(queue[..hi]) == multiset(queue[..lo]) + multiset(queue[lo..hi])
  {
    assert queue[..hi] == queue[..lo] + queue[lo..hi];
  }

  lemma LiveStored(s: Shared)
    requires Coherent(s) && s.call.Loaded?
    ensures var i, r := s.call.at, StoresIndex(s);
            && (s.call.op.Add? ==> Live(r) == s.queue[..i])
            && (s.call.op.Pop? ==> Live(r) == s.queue[..i - 1] && OnTheWay(r) == [s.queue[i - 1]])
  {
    if s.call.op.Add? {
      var i, r := s.call.at, StoresIndex(s);
      assert Live(r) == s.queue[..i] + s.queue[i + 1..i + 1];
    }
  }

  lemma LiveTouched(s: Shared)
    requires Coherent(s)
    ensures multiset(Live(TouchesSlot(s)))
         == multiset(Live(s)) + if s.call.Adding? then multiset{Entry(s.call.error, |s.accepted|)} else multiset{}
  {
    if s.call.Adding? {
      var slot, r := s.call.slot, TouchesSlot(s);
      assert r.queue[..s.index] == s.queue[..slot] + [r.queue[slot]] + s.queue[slot + 1..s.index];
    }
  }

  lemma LiveInterrupted(s: Shared, error: Error)
    requires Coherent(s) && s.index < MAX_ERROR_QUEUE_SIZE
    ensures Live(Interrupted(s, error)) == Live(s) + [Entry(error, |s.accepted|)]
  {
    var r := Interrupted(s, error);
    assert r.queue[..r.index] == s.queue[..s.index] + [r.queue[s.index]];
    if s.call.Adding? {
      var slot := s.call.slot;
      assert r.queue[..slot] == s.queue[..slot];
      assert r.queue[slot + 1..r.index] == s.queue[slot + 1..s.index] + [r.queue[s.index]];
    }
  }

  /** Accepted and duplicated on one side, everything and lost on the other. */
  lemma Carry(a: multiset<Entry>, d: multiset<Entry>, e: multiset<Entry>, l: multiset<Entry>, x: multiset<Entry>)
    requires a + d == e + l
    ensures (a + x) + d == (e + x) + l
  {
    assert (a + x) + d == (a + d) + x;
    assert (e + x) + l == (e + l) + x;
  }

  lemma Shift(a: multiset<Entry>, e: multiset<Entry>, l: multiset<Entry>, x: multiset<Entry>)
    requires a == (e + x) + l
    ensures a == e + (l + x)
  {
  }

  lemma Trade(a: multiset<Entry>, d: multiset<Entry>, e: multiset<Entry>, l: multiset<Entry>, e1: multiset<Entry>,
              due: multiset<Entry>, read: multiset<Entry>)
    requires a + d == e + l && e1 + due == e + read
    ensures a + (d + read) == e1 + (l + due)
  {
    assert (a + d) + read == (e + read) + l;
    Shift((a + d) + read, e1, l, due);
  }

  lemma AddTakes(s: Shared)
    requires Coherent(s) && s.call.Loaded? && s.call.op.Add?
    ensures Everywhere(s) == Everywhere(StoresIndex(s)) + multiset(s.queue[s.call.at..s.index])
  {
    LiveStored(s);
    Split(s.queue, s.call.at, s.index);
  }

  lemma PopTakes(s: Shared)
    requires Coherent(s) && s.call.Loaded? && s.call.op.Pop?
    ensures Everywhere(s) == Everywhere(StoresIndex(s)) + multiset(s.queue[s.call.at..s.index])
  {
    var i := s.call.at;
    LiveStored(s);
    Split(s.queue, i, s.index);
    Split(s.queue, i - 1, i);
    assert s.queue[i - 1..i] == [s.queue[i - 1]];
  }

  lemma StoreAccounts(s: Shared)
    requires Coherent(s) && s.call.Loaded? && Accounted(s)
    ensures Accounted(StoresIndex(s))
  {
    if s.call.op.Add? {
      AddTakes(s);
    } else {
      PopTakes(s);
    }
    Shift(multiset(s.accepted) + multiset(s.duplicated), Everywhere(StoresIndex(s)), multiset(s.lost),
          multiset(s.queue[s.call.at..s.index]));
  }

  lemma AddAccounts(s: Shared)
    requires Coherent(s) && Accounted(s) && s.call.Adding?
    ensures Accounted(TouchesSlot(s))
  {
    var entry := Entry(s.call.error, |s.accepted|);
    LiveTouched(s);
    assert Everywhere(TouchesSlot(s)) == Everywhere(s) + multiset{entry};
    Carry(multiset(s.accepted), multiset(s.duplicated), Everywhere(s), multiset(s.lost), multiset{entry});
  }

  lemma PopAccounts(s: Shared)
    requires Coherent(s) && Accounted(s) && s.call.Popping?
    ensures Accounted(TouchesSlot(s))
  {
    var r, due, read := TouchesSlot(s), s.call.due, s.queue[s.call.slot];
    assert Live(r) == Live(s);
    assert Everywhere(r) + multiset{due} == Everywhere(s) + multiset{read};
    if s.call.slot < s.index {
      Trade(multiset(s.accepted), multiset(s.duplicated), Everywhere(s), multiset(s.lost), Everywhere(r),
            multiset{due}, multiset{read});
    } else {
      assert Everywhere(r) == Everywhere(s);
    }
  }

  lemma InterruptAccounts(s: Shared, error: Error)
    requires Coherent(s) && Accounted(s)
    ensures Accounted(Interrupted(s, error))
  {
    if s.index < MAX_ERROR_QUEUE_SIZE {
      var entry := Entry(error, |s.accepted|);
      LiveInterrupted(s, error);
      assert Everywhere(Interrupted(s, error)) == Everywhere(s) + multiset{entry};
      Carry(multiset(s.accepted), multiset(s.duplicated), Everywhere(s), multiset(s.lost), multiset{entry});
    }
  }

  lemma PerformAccounts(s: Shared, access: Access)
    requires Coherent(s) && Accounted(s)
    ensures Accounted(Perform(s, access))
  {
    match access
    case Load(op) =>
    case StoreIndex => if s.call.Loaded? { StoreAccounts(s); }
    case TouchSlot =>
      if s.call.Adding? {
        AddAccounts(s);
      } else if s.call.Popping? {
        PopAccounts(s);
      }
    case Interrupt(error) => InterruptAccounts(s, error);
  }

  lemma {:induction false} AllAccounted(s: Shared, accesses: seq<Access>)
    requires Coherent(s) && Accounted(s)
    ensures Accounted(PerformAll(s, accesses))
    decreases |accesses|
  {
    if accesses != [] {
      PerformAccounts(s, accesses[0]);
      AllAccounted(Perform(s, accesses[0]), accesses[1..]);
    }
  }

  /** No access looks at the two records. */
  function Unrecorded(s: Shared): Shared {
    s.(lost := [], duplicated := [])
  }

  lemma RecordsUnread(s: Shared, access: Access)
    requires Coherent(s)
    ensures Unrecorded(Perform(s, access)) == Unrecorded(Perform(Unrecorded(s), access))
    ensures !Disturbed(s, access) ==> Unrecorded(Perform(Unrecorded(s), access)) == Perform(Unrecorded(s), access)
  {
  }

  lemma UndisturbedConserves(s: Shared, access: Access)
    requires Coherent(s) && Conserved(s) && !Disturbed(s, access)
    ensures Conserved(Perform(s, access))
  {
    assert Live(Unrecorded(s)) == Live(s);
    PerformAccounts(Unrecorded(s), access);
    RecordsUnread(s, access);
    SameEverywhere(Perform(s, access), Perform(Unrecorded(s), access));
  }

  lemma SameEverywhere(s: Shared, r: Shared)
    requires Coherent(s) && Coherent(r) && r == Unrecorded(s)
    ensures Accounted(r) ==> Conserved(s)
  {
    assert Everywhere(r) == Everywhere(s);
    assert Everywhere(r) + multiset(r.lost) == Everywhere(r);
    assert multiset(r.accepted) + multiset(r.duplicated) == multiset(r.accepted);
  }

  // ----- An error that is gone -----

  /** Accepted, but neither reported nor retained nor on its way. */
  ghost predicate Gone(s: Shared, entry: Entry)
    requires Coherent(s)
  {
    entry in s.accepted && entry !in s.reported && entry !in Live(s) && entry !in OnTheWay(s)
  }

  lemma {:induction false} AcceptedOnce(accepted: seq<Entry>, entry: Entry)
    requires Numbered(accepted)
    ensures multiset(accepted)[entry] <= 1
    decreases |accepted|
  {
    if accepted != [] {
      var n := |accepted| - 1;
      AcceptedOnce(accepted[..n], entry);
      assert accepted == accepted[..n] + [accepted[n]];
      assert entry in accepted[..n] ==> entry.number < n;
    }
  }

  lemma StoreTakesAway(s: Shared) returns (gone: Entry)
    requires Coherent(s) && Conserved(s) && Numbered(s.accepted) && Disturbed(s, StoreIndex)
    ensures Gone(StoresIndex(s), gone)
  {
    var i := s.call.at;
    gone := s.queue[i];
    AcceptedOnce(s.accepted, gone);
    LiveStored(s);
    Split(s.queue, i, s.index);
    assert gone in s.queue[i..s.index];
    OnlyThere(s.accepted, s.queue[i..s.index], s.reported + s.queue[..i], gone);
  }

  /** An entry that occurs once is in one of two parts. */
  lemma OnlyThere(accepted: seq<Entry>, part: seq<Entry>, rest: seq<Entry>, entry: Entry)
    requires multiset(accepted) == multiset(part) + multiset(rest) && multiset(accepted)[entry] <= 1 && entry in part
    ensures entry in accepted && entry !in rest
  {
    assert entry in multiset(part) && entry in multiset(accepted) && entry !in multiset(rest);
  }

  lemma TouchTakesAway(s: Shared) returns (gone: Entry)
    requires Coherent(s) && Conserved(s) && Numbered(s.accepted) && Disturbed(s, TouchSlot)
    ensures Gone(TouchesSlot(s), gone)
  {
    gone := s.call.due;
    AcceptedOnce(s.accepted, gone);
    OnlyThere(s.accepted, OnTheWay(s), s.reported + Live(s), gone);
    assert s.queue[s.call.slot] in Live(s);
  }

  lemma TakesAway(s: Shared, access: Access) returns (gone: Entry)
    requires Coherent(s) && Conserved(s) && Numbered(s.accepted) && Disturbed(s, access)
    ensures Gone(Perform(s, access), gone)
  {
    if access.StoreIndex? {
      gone := StoreTakesAway(s);
    } else {
      gone := TouchTakesAway(s);
    }
  }

  lemma StoreStaysGone(s: Shared, gone: Entry)
    requires Coherent(s) && s.call.Loaded? && Gone(s, gone)
    ensures Gone(StoresIndex(s), gone)
  {
    LiveStored(s);
    if s.call.op.Pop? {
      assert s.queue[s.call.at - 1] in Live(s);
    }
  }

  lemma TouchStaysGone(s: Shared, gone: Entry)
    requires Coherent(s) && Numbered(s.accepted) && Gone(s, gone)
    ensures Gone(TouchesSlot(s), gone)
  {
    LiveTouched(s);
    assert gone !in multiset(Live(s));
    assert gone !in multiset(Live(TouchesSlot(s)));
    if s.call.Popping? && s.call.slot < s.index {
      assert s.queue[s.call.slot] in Live(s);
    }
  }

  lemma InterruptStaysGone(s: Shared, error: Error, gone: Entry)
    requires Coherent(s) && Numbered(s.accepted) && Gone(s, gone)
    ensures Gone(Interrupted(s, error), gone)
  {
    if s.index < MAX_ERROR_QUEUE_SIZE {
      LiveInterrupted(s, error);
    }
  }

  lemma StaysGone(s: Shared, access: Access, gone: Entry)
    requires Coherent(s) && Numbered(s.accepted) && Gone(s, gone)
    ensures Gone(Perform(s, access), gone)
  {
    match access
    case Load(op) =>
    case StoreIndex => if s.call.Loaded? { StoreStaysGone(s, gone); }
    case TouchSlot => TouchStaysGone(s, gone);
    case Interrupt(error) => InterruptStaysGone(s, error, gone);
  }

  lemma {:induction false} AllStayGone(s: Shared, accesses: seq<Access>, gone: Entry)
    requires Coherent(s) && Numbered(s.accepted) && Gone(s, gone)
    ensures !Conserved(PerformAll(s, accesses))
    decreases |accesses|
  {
    if accesses == [] {
      assert gone in multiset(s.accepted);
    } else {
      StaysGone(s, accesses[0], gone);
      AllStayGone(Perform(s, accesses[0]), accesses[1..], gone);
    }
  }

  lemma DisturbedForGood(s: Shared, access: Access, accesses: seq<Access>)
    requires Coherent(s) && Conserved(s) && Numbered(s.accepted) && Disturbed(s, access)
    ensures !Conserved(PerformAll(Perform(s, access), accesses))
  {
    var gone := TakesAway(s, access);
    PerformNumbers(s, access);
    AllStayGone(Perform(s, access), accesses, gone);
  }

  lemma PerformNumbers(s: Shared, access: Access)
    requires Coherent(s) && Numbered(s.accepted)
    ensures Numbered(Perform(s, access).accepted)
  {
  }

  lemma {:induction false} ConservedIffUndisturbed(s: Shared, accesses: seq<Access>)
    requires Coherent(s) && Conserved(s) && Numbered(s.accepted)
    ensures Conserved(PerformAll(s, accesses)) <==> Undisturbed(s, accesses)
    decreases |accesses|
  {
    if accesses != [] {
      var access := accesses[0];
      if Disturbed(s, access) {
        DisturbedForGood(s, access, accesses[1..]);
      } else {
        UndisturbedConserves(s, access);
        PerformNumbers(s, access);
        ConservedIffUndisturbed(Perform(s, access), accesses[1..]);
      }
    }
  }

  /** Conservation with interrupts. Let the interrupt add errors anywhere, also inside a command's call.
      What was accepted and what is duplicated are always what was reported, what is retained or on its way,
      and what is lost. And every accepted error is reported or retained, once, if and only if no interrupt
      added one inside a call: between load and store of the index, or between that store and the read of
      the slot. Only an `add` that has stored the index is safe already. */
  lemma InterruptedConservation(s: Shared, accesses: seq<Access>)
    requires Coherent(s) && Accounted(s) && Conserved(s) && Numbered(s.accepted)
    ensures Accounted(PerformAll(s, accesses))
    ensures Conserved(PerformAll(s, accesses)) <==> Undisturbed(s, accesses)
  {
    AllAccounted(s, accesses);
    ConservedIffUndisturbed(s, accesses);
  }

  // ----- Calls on their own, and two that are broken into -----

  function Values(entries: seq<Entry>): (r: seq<Error>)
    ensures |r| == |entries|
  {
    seq(|entries|, i requires 0 <= i < |entries| => entries[i].error)
  }

  /** What a history of whole calls sees of the accesses, between calls. */
  function Seen(s: Shared): History
    requires Coherent(s)
  {
    History(Values(s.queue[..s.index]), Values(s.accepted), Values(s.reported))
  }

  /** A call that nothing breaks into, and an interrupt between calls, do what the whole call does. */
  lemma UninterruptedCall(s: Shared, op: Op)
    requires Coherent(s) && s.call.NoCall?
    ensures var r := Perform(Perform(Perform(s, Load(op)), StoreIndex), TouchSlot);
            r.call.NoCall? && Seen(r) == Apply(Seen(s), op)
    ensures op.Add? ==> Seen(Perform(s, Interrupt(op.error))) == Apply(Seen(s), op)
  {
    var r := Perform(Perform(Perform(s, Load(op)), StoreIndex), TouchSlot);
    if op.Pop? && s.index > 0 {
      assert Seen(r).reported == Seen(s).reported + [Seen(s).retained[s.index - 1]];
      assert Seen(r).retained == Seen(s).retained[..s.index - 1];
    } else if op.Add? && s.index < MAX_ERROR_QUEUE_SIZE {
      assert Seen(r).retained == Seen(s).retained + [op.error];
      assert Seen(r).accepted == Seen(s).accepted + [op.error];
      assert Perform(s, Interrupt(op.error)).queue == r.queue && Perform(s, Interrupt(op.error)).index == r.index;
    }
  }

  /** One error retained, and a command has begun to read it. */
  function Reading(error: Error, queue: seq<Entry>): (s: Shared)
    requires |queue| == MAX_ERROR_QUEUE_SIZE
    ensures Coherent(s) && Numbered(s.accepted)
  {
    Shared(queue[0 := Entry(error, 0)], 1, Loaded(Pop, 1), [Entry(error, 0)], [], [], [])
  }

  /** An abort reported between load and store of the index is lost. */
  lemma AbortLost(error: Error, queue: seq<Entry>)
    requires |queue| == MAX_ERROR_QUEUE_SIZE
    ensures var r := PerformAll(Reading(error, queue), [Interrupt(ConversionAborted), StoreIndex, TouchSlot]);
            Values(r.reported) == [error] && Live(r) == [] && Values(r.lost) == [ConversionAborted]
  {
    var s := Reading(error, queue);
    var s1 := Perform(s, Interrupt(ConversionAborted));
    var s2 := Perform(s1, StoreIndex);
    PerformThree(s, Interrupt(ConversionAborted), StoreIndex, TouchSlot);
    assert s2.lost == [Entry(ConversionAborted, 1)] && s2.call == Popping(0, Entry(error, 0));
  }

  /** One reported between that store and the read of the slot is read in place of the error due, and stays
      to be reported again; the error due is lost. */
  lemma AbortTwice(error: Error, queue: seq<Entry>)
    requires |queue| == MAX_ERROR_QUEUE_SIZE
    ensures var r := PerformAll(Reading(error, queue), [StoreIndex, Interrupt(ConversionAborted), TouchSlot]);
            && Values(r.reported) == [ConversionAborted] && Live(r) == r.reported
            && Values(r.lost) == [error] && r.duplicated == r.reported
  {
    var s := Reading(error, queue);
    var s1 := Perform(s, StoreIndex);
    var s2 := Perform(s1, Interrupt(ConversionAborted));
    PerformThree(s, StoreIndex, Interrupt(ConversionAborted), TouchSlot);
    assert s1.call == Popping(0, Entry(error, 0)) && s1.index == 0;
    assert s2.queue[0] == Entry(ConversionAborted, 1) && s2.index == 1;
  }

  lemma PerformThree(s: Shared, a: Access, b: Access, c: Access)
    requires Coherent(s)
    ensures PerformAll(s, [a, b, c]) == Perform(Perform(Perform(s, a), b), c)
  {
    assert [a, b, c][1..] == [b, c] && [b, c][1..] == [c] && [c][1..] == [];
    assert PerformAll(Perform(Perform(s, a), b), [c]) == Perform(Perform(Perform(s, a), b), c);
    assert PerformAll(Perform(s, a), [b, c]) == PerformAll(Perform(Perform(s, a), b), [c]);
  }

  /** `ErrorManager`: a fixed array and the index of its first free slot. */
  class ErrorManager {
    const queue: array<Error>
    var index: nat

    ghost predicate Valid()
      reads this
    {
      queue.Length == MAX_ERROR_QUEUE_SIZE && index <= queue.Length
    }

    /** The errors retained, oldest first. Slots from `index` on were never written or are stale,
        and are not part of it. */
    ghost function Retained(): seq<Error>
      requires Valid()
      reads this, queue
    {
      queue[..index]
    }

    constructor ()
      ensures Valid() && fresh(queue) && Retained() == []
    {
      queue := new Error[MAX_ERROR_QUEUE_SIZE];
      index := 0;
    }

    method Add(error: Error)
      requires Valid()
      modifies this, queue
      ensures Valid() && Retained() == Push(old(Retained()), error)
    {
      if index < queue.Length {
        queue[index] := error;
        index := index + 1;
      }
    }

    method Assert(condition: bool, error: Error) returns (ok: bool)
      requires Valid()
      modifies this, queue
      ensures Valid() && ok == condition
      ensures Retained() == if condition then old(Retained()) else Push(old(Retained()), error)
    {
      if !condition {
        Add(error);
      }
      ok := condition;
    }

    method HasError() returns (pending: bool)
      requires Valid()
      ensures pending <==> Retained() != []
    {
      pending := index > 0;
    }

    method Pop() returns (error: Error)
      requires Valid()
      modifies this
      ensures Valid()
      ensures error == Top(old(Retained())) && Retained() == Popped(old(Retained()))
    {
      if index == 0 {
        error := NoError;
      } else {
        index := index - 1;
        error := queue[index];
      }
    }
  }
}
