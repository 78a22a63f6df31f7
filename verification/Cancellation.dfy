/**
 * The cancellation token: an atomic flag and a locked registry of weak references, used by any number of
 * concurrent `cancel` and `register` calls while controls may be dropped.
 */
module Cancellation {
  import opened Wrappers

  type ControlId = nat

  /** A registry entry: a weak reference, tagged with the call that pushed it. */
  datatype Entry = Entry(call: nat, control: ControlId)

  /** Where one call is. `Visiting` owns the references it drained and upgraded. */
  datatype Call =
    | CancelEntered
    | Draining
    | Visiting(pending: seq<Entry>)
    | CancelReturned
    | RegisterEntered(control: ControlId)
    | Pushed(control: ControlId)
    | Stopping(control: ControlId)
    | RegisterReturned(control: ControlId)

  datatype State = State(
    flag: bool,
    registry: seq<Entry>,
    live: set<ControlId>,
    stopped: set<ControlId>,
    calls: seq<Call>)

  datatype Label =
    | Enter(call: Call)
    | Advance(index: nat)
    | Drop(control: ControlId)

  /** Entries whose control is still alive, in order. */
  function Alive(entries: seq<Entry>, live: set<ControlId>): (r: seq<Entry>)
    ensures forall e :: e in r <==> e in entries && e.control in live
  {
    if entries == [] then []
    else (if entries[0].control in live then [entries[0]] else []) + Alive(entries[1..], live)
  }

  /** Entries keep their order: each is kept or dropped on its own. */
  lemma {:induction false} AliveInOrder(a: seq<Entry>, b: seq<Entry>, live: set<ControlId>)
    ensures Alive(a + b, live) == Alive(a, live) + Alive(b, live)
  {
    if a == [] {
      assert a + b == b;
    } else {
      AliveInOrder(a[1..], b, live);
      assert (a + b)[0] == a[0] && (a + b)[1..] == a[1..] + b;
      var first := if a[0].control in live then [a[0]] else [];
      assert first + (Alive(a[1..], live) + Alive(b, live)) == (first + Alive(a[1..], live)) + Alive(b, live);
    }
  }

  /** A call that borrows or owns a strong reference keeps its control alive. */
  predicate Keeps(call: Call, c: ControlId) {
    match call
    case Visiting(pending) => exists e | e in pending :: e.control == c
    case RegisterEntered(d) => d == c
    case Pushed(d) => d == c
    case Stopping(d) => d == c
    case _ => false
  }

  predicate Enabled(s: State, l: Label) {
    match l
    case Enter(call) => call.CancelEntered? || (call.RegisterEntered? && call.control in s.live)
    case Advance(i) => i < |s.calls| && !s.calls[i].CancelReturned? && !s.calls[i].RegisterReturned?
    case Drop(c) => c in s.live && forall i :: 0 <= i < |s.calls| ==> !Keeps(s.calls[i], c)
  }

  /** One atomic action of a call: a flag access, a critical section, or one control's own cancel. */
  function Advanced(s: State, i: nat): State
    requires Enabled(s, Advance(i))
  {
    match s.calls[i]
    case CancelEntered => s.(flag := true, calls := s.calls[i := Draining])
    case Draining => s.(registry := [], calls := s.calls[i := Visiting(Alive(s.registry, s.live))])
    case Visiting(pending) =>
      if pending == [] then s.(calls := s.calls[i := CancelReturned])
      else s.(stopped := s.stopped + {pending[0].control}, calls := s.calls[i := Visiting(pending[1..])])
    case RegisterEntered(c) =>
      s.(registry := Alive(s.registry, s.live) + [Entry(i, c)], calls := s.calls[i := Pushed(c)])
    case Pushed(c) => s.(calls := s.calls[i := if s.flag then Stopping(c) else RegisterReturned(c)])
    case Stopping(c) => s.(stopped := s.stopped + {c}, calls := s.calls[i := RegisterReturned(c)])
    case _ => s
  }

  function Apply(s: State, l: Label): State
    requires Enabled(s, l)
  {
    match l
    case Enter(call) => s.(calls := s.calls + [call])
    case Advance(i) => Advanced(s, i)
    case Drop(c) => s.(live := s.live - {c})
  }

  /** Registering a control keeps every live registration, forgets the others, and adds its own. */
  lemma RegisteringPrunes(s: State, i: nat)
    requires Enabled(s, Advance(i)) && s.calls[i].RegisterEntered?
    ensures var c, t := s.calls[i].control, Advanced(s, i);
      forall e :: e in t.registry <==> e == Entry(i, c) || (e in s.registry && e.control in s.live)
  {
  }

  /**
   * Calls may come at any time. A control may go exactly when no `cancel` has it left to visit and no `register`
   * of it is in progress.
   */
  lemma AnybodyMayCall(s: State, c: ControlId)
    ensures Enabled(s, Enter(CancelEntered)) && (c in s.live ==> Enabled(s, Enter(RegisterEntered(c))))
    ensures Enabled(s, Drop(c)) <==>
      && c in s.live
      && (forall i, k :: 0 <= i < |s.calls| && s.calls[i].Visiting? && 0 <= k < |s.calls[i].pending| ==> s.calls[i].pending[k].control != c)
      && (forall i :: 0 <= i < |s.calls| ==> s.calls[i] !in {RegisterEntered(c), Pushed(c), Stopping(c)})
    ensures Enabled(s, Drop(c)) ==> Apply(s, Drop(c)) == s.(live := s.live - {c})
  {
    if Enabled(s, Drop(c)) {
      assert forall i :: 0 <= i < |s.calls| ==> !Keeps(s.calls[i], c);
    } else if c in s.live {
      var i :| 0 <= i < |s.calls| && Keeps(s.calls[i], c);
    }
  }

  predicate Initial(s: State) {
    !s.flag && s.registry == [] && s.stopped == {} && s.calls == []
  }

  ghost predicate IsRun(states: seq<State>, labels: seq<Label>) {
    |states| == |labels| + 1 && Initial(states[0]) &&
    forall i :: 0 <= i < |labels| ==> Enabled(states[i], labels[i]) && states[i + 1] == Apply(states[i], labels[i])
  }

  // ---------- where a registration is ----------

  /** The call has drained the registry. */
  predicate HasDrained(call: Call) {
    call.Visiting? || call.CancelReturned?
  }

  /** The call has pushed its control. */
  predicate HasPushed(call: Call) {
    call.Pushed? || call.Stopping? || call.RegisterReturned?
  }

  ghost predicate Held(s: State, e: Entry) {
    exists k :: 0 <= k < |s.calls| && s.calls[k].Visiting? && e in s.calls[k].pending
  }

  /** A registration is in the registry, in a drained list, or its control has been cancelled. */
  ghost predicate Located(s: State, j: nat)
    requires j < |s.calls| && HasPushed(s.calls[j])
  {
    var c := s.calls[j].control;
    c in s.stopped || Entry(j, c) in s.registry || Held(s, Entry(j, c))
  }

  ghost predicate Inv(s: State) {
    // the flag is set before any drain
    (forall i :: 0 <= i < |s.calls| && (s.calls[i].Draining? || HasDrained(s.calls[i])) ==> s.flag) &&
    (forall j :: 0 <= j < |s.calls| && HasPushed(s.calls[j]) && s.calls[j].control in s.live ==> Located(s, j)) &&
    // what is in the registry was pushed by its call, and after a drain its registrant has yet to look again
    (forall e :: e in s.registry ==> e.call < |s.calls| && HasPushed(s.calls[e.call]) && s.calls[e.call].control == e.control) &&
    (forall e, i :: e in s.registry && 0 <= i < |s.calls| && HasDrained(s.calls[i]) ==>
       e.control in s.stopped || s.calls[e.call].Pushed? || s.calls[e.call].Stopping?)
  }

  lemma InitialInv(s: State)
    requires Initial(s)
    ensures Inv(s)
  {
  }

  lemma StepInv(s: State, l: Label)
    requires Inv(s) && Enabled(s, l)
    ensures Inv(Apply(s, l))
  {
    match l
    case Enter(call) => EnterInv(s, call);
    case Drop(c) => DropInv(s, c);
    case Advance(i) => AdvanceInv(s, i);
  }

  lemma EnterInv(s: State, call: Call)
    requires Inv(s) && Enabled(s, Enter(call))
    ensures Inv(Apply(s, Enter(call)))
  {
    var t := Apply(s, Enter(call));
    forall j | 0 <= j < |t.calls| && HasPushed(t.calls[j]) && t.calls[j].control in t.live ensures Located(t, j) {
      assert t.calls[j] == s.calls[j] && Located(s, j);
      StaysHeld(s, t, Entry(j, t.calls[j].control));
    }
  }

  lemma DropInv(s: State, c: ControlId)
    requires Inv(s) && Enabled(s, Drop(c))
    ensures Inv(Apply(s, Drop(c)))
  {
    var t := Apply(s, Drop(c));
    forall j | 0 <= j < |t.calls| && HasPushed(t.calls[j]) && t.calls[j].control in t.live ensures Located(t, j) {
      assert Located(s, j);
      StaysHeld(s, t, Entry(j, t.calls[j].control));
    }
  }

  lemma StaysHeld(s: State, t: State, e: Entry)
    requires |s.calls| <= |t.calls| && forall k :: 0 <= k < |s.calls| && s.calls[k].Visiting? ==> t.calls[k] == s.calls[k]
    ensures Held(s, e) ==> Held(t, e)
  {
    if Held(s, e) {
      var k :| 0 <= k < |s.calls| && s.calls[k].Visiting? && e in s.calls[k].pending;
      assert t.calls[k].Visiting? && e in t.calls[k].pending;
    }
  }

  lemma AdvanceInv(s: State, i: nat)
    requires Inv(s) && Enabled(s, Advance(i))
    ensures Inv(Apply(s, Advance(i)))
  {
    var t := Apply(s, Advance(i));
    forall j | 0 <= j < |t.calls| && HasPushed(t.calls[j]) && t.calls[j].control in t.live ensures Located(t, j) {
      AdvanceKeepsLocated(s, i, j);
    }
  }

  lemma AdvanceKeepsLocated(s: State, i: nat, j: nat)
    requires Inv(s) && Enabled(s, Advance(i)) && j < |s.calls|
    requires var t := Apply(s, Advance(i)); HasPushed(t.calls[j]) && t.calls[j].control in t.live
    ensures Located(Apply(s, Advance(i)), j)
  {
    var t := Apply(s, Advance(i));
    var e := Entry(j, t.calls[j].control);
    if s.calls[i].RegisterEntered? && j == i {
      assert t.registry[|t.registry| - 1] == e;
    } else {
      assert HasPushed(s.calls[j]) && Located(s, j);
      if e.control in s.stopped {
      } else if e in s.registry {
        if s.calls[i].Draining? {
          assert t.calls[i].Visiting? && e in t.calls[i].pending;
        }
      } else {
        var k :| 0 <= k < |s.calls| && s.calls[k].Visiting? && e in s.calls[k].pending;
        if k == i {
          var pending := s.calls[i].pending;
          if e != pending[0] {
            assert e in pending[1..];
            assert t.calls[i].Visiting? && e in t.calls[i].pending;
          }
        } else {
          assert t.calls[k].Visiting? && e in t.calls[k].pending;
        }
      }
    }
  }

  lemma {:induction false} RunInv(states: seq<State>, labels: seq<Label>, n: nat)
    requires IsRun(states, labels) && n < |states|
    ensures Inv(states[n])
  {
    if n == 0 {
      InitialInv(states[0]);
    } else {
      RunInv(states, labels, n - 1);
      StepInv(states[n - 1], labels[n - 1]);
    }
  }

  // ---------- no lost cancellation ----------

  /** Some cancel has returned, and so has the registration of a control that is still alive. */
  ghost predicate BothReturned(s: State, i: nat, j: nat) {
    i < |s.calls| && j < |s.calls| && s.calls[i].CancelReturned? && s.calls[j].RegisterReturned? &&
    s.calls[j].control in s.live
  }

  /** Then the control is cancelled, or an unfinished cancel owns the reference and has yet to reach it. */
  lemma NothingLost(states: seq<State>, labels: seq<Label>, n: nat, i: nat, j: nat)
    requires IsRun(states, labels) && n < |states| && BothReturned(states[n], i, j)
    ensures var s := states[n]; s.calls[j].control in s.stopped || Held(s, Entry(j, s.calls[j].control))
  {
    RunInv(states, labels, n);
    assert Located(states[n], j);
  }

  /** When no cancel is in progress, every live control whose registration returned is cancelled. */
  lemma NothingLostAtRest(states: seq<State>, labels: seq<Label>, n: nat, i: nat, j: nat)
    requires IsRun(states, labels) && n < |states| && BothReturned(states[n], i, j)
    requires forall k :: 0 <= k < |states[n].calls| ==> !states[n].calls[k].Visiting?
    ensures states[n].calls[j].control in states[n].stopped
  {
    NothingLost(states, labels, n, i, j);
  }

  predicate IsCancel(call: Call) {
    call.CancelEntered? || call.Draining? || call.Visiting? || call.CancelReturned?
  }

  predicate HasReturned(call: Call) {
    call.CancelReturned?
  }

  predicate InProgress(call: Call) {
    IsCancel(call) && !call.CancelReturned?
  }

  /** With a single cancel its return is enough. */
  lemma SoleCancelLosesNothing(states: seq<State>, labels: seq<Label>, n: nat, i: nat, j: nat)
    requires IsRun(states, labels) && n < |states| && BothReturned(states[n], i, j)
    requires forall k :: 0 <= k < |states[n].calls| && IsCancel(states[n].calls[k]) ==> k == i
    ensures states[n].calls[j].control in states[n].stopped
  {
    NothingLost(states, labels, n, i, j);
  }

  function Count(calls: seq<Call>, which: Call -> bool): nat {
    if calls == [] then 0
    else Count(calls[..|calls| - 1], which) + if which(calls[|calls| - 1]) then 1 else 0
  }

  lemma {:induction false} CountZero(calls: seq<Call>, which: Call -> bool)
    ensures Count(calls, which) == 0 <==> forall k :: 0 <= k < |calls| ==> !which(calls[k])
  {
    if calls != [] {
      CountZero(calls[..|calls| - 1], which);
    }
  }

  lemma CountSnoc(calls: seq<Call>, call: Call, which: Call -> bool)
    ensures Count(calls + [call], which) == Count(calls, which) + if which(call) then 1 else 0
  {
    assert (calls + [call])[..|calls|] == calls;
  }

  lemma Extend(states: seq<State>, labels: seq<Label>, l: Label) returns (more: seq<State>, and: seq<Label>)
    requires IsRun(states, labels) && Enabled(states[|labels|], l)
    ensures IsRun(more, and) && more[|and|] == Apply(states[|labels|], l)
  {
    more, and := states + [Apply(states[|labels|], l)], labels + [l];
  }

  /** A control is registered, a cancel drains the registry and is delayed. */
  lemma DelayedCancel(c: ControlId) returns (states: seq<State>, labels: seq<Label>)
    ensures IsRun(states, labels)
    ensures states[|labels|] == State(true, [], {c}, {}, [RegisterReturned(c), Visiting([Entry(0, c)])])
  {
    states, labels := [State(false, [], {c}, {}, [])], [];
    states, labels := Extend(states, labels, Enter(RegisterEntered(c)));
    states, labels := Extend(states, labels, Advance(0));
    assert states[|labels|] == State(false, [Entry(0, c)], {c}, {}, [Pushed(c)]);
    states, labels := Extend(states, labels, Advance(0));
    states, labels := Extend(states, labels, Enter(CancelEntered));
    assert states[|labels|] == State(false, [Entry(0, c)], {c}, {}, [RegisterReturned(c), CancelEntered]);
    states, labels := Extend(states, labels, Advance(1));
    assert states[|labels|] == State(true, [Entry(0, c)], {c}, {}, [RegisterReturned(c), Draining]);
    states, labels := Extend(states, labels, Advance(1));
    assert Alive([Entry(0, c)], {c}) == [Entry(0, c)];
  }

  /**
   * With two it is not: while the first is delayed, the second finds nothing to visit and returns, and the
   * registered control is not cancelled yet.
   */
  lemma TwoCancelsMayRace(c: ControlId) returns (states: seq<State>, labels: seq<Label>)
    ensures IsRun(states, labels) && BothReturned(states[|labels|], 2, 0)
    ensures states[|labels|].calls[0].control == c && c !in states[|labels|].stopped
  {
    states, labels := DelayedCancel(c);
    states, labels := Extend(states, labels, Enter(CancelEntered));
    states, labels := Extend(states, labels, Advance(2));
    states, labels := Extend(states, labels, Advance(2));
    assert states[|labels|].calls[2] == Visiting([]);
    states, labels := Extend(states, labels, Advance(2));
  }

  // ---------- exactly when a returned cancel is a guarantee ----------

  /** What a delayed first cancel leaves: the control is registered, alive and not cancelled. */
  ghost predicate Delayed(s: State, c: ControlId, unfinished: nat, returned: nat) {
    s.flag && s.registry == [] && c in s.live && c !in s.stopped && s.calls != [] && s.calls[0] == RegisterReturned(c) &&
    Count(s.calls, InProgress) == unfinished && Count(s.calls, HasReturned) == returned
  }

  lemma {:induction false} CountSplit(calls: seq<Call>)
    ensures Count(calls, IsCancel) == Count(calls, InProgress) + Count(calls, HasReturned)
  {
    if calls != [] {
      CountSplit(calls[..|calls| - 1]);
    }
  }

  /** While the first cancel is delayed, any number of others find nothing to visit and return. */
  lemma {:induction false} OthersReturn(c: ControlId, returned: nat) returns (states: seq<State>, labels: seq<Label>)
    ensures IsRun(states, labels) && Delayed(states[|labels|], c, 1, returned)
  {
    if returned == 0 {
      states, labels := DelayedCancel(c);
      var calls := [RegisterReturned(c), Visiting([Entry(0, c)])];
      CountSnoc([], calls[0], InProgress);
      CountSnoc([calls[0]], calls[1], InProgress);
      CountSnoc([], calls[0], HasReturned);
      CountSnoc([calls[0]], calls[1], HasReturned);
      assert calls == [] + [calls[0]] + [calls[1]];
    } else {
      states, labels := OthersReturn(c, returned - 1);
      var calls := states[|labels|].calls;
      states, labels := Extend(states, labels, Enter(CancelEntered));
      states, labels := Extend(states, labels, Advance(|calls|));
      states, labels := Extend(states, labels, Advance(|calls|));
      assert states[|labels|].calls[|calls|] == Visiting([]);
      states, labels := Extend(states, labels, Advance(|calls|));
      assert states[|labels|].calls == calls + [CancelReturned];
      CountSnoc(calls, CancelReturned, InProgress);
      CountSnoc(calls, CancelReturned, HasReturned);
    }
  }

  /** And any number of further ones have only been entered. */
  lemma {:induction false} OthersEnter(c: ControlId, unfinished: nat, returned: nat)
    returns (states: seq<State>, labels: seq<Label>)
    requires unfinished > 0
    ensures IsRun(states, labels) && Delayed(states[|labels|], c, unfinished, returned)
  {
    if unfinished == 1 {
      states, labels := OthersReturn(c, returned);
    } else {
      states, labels := OthersEnter(c, unfinished - 1, returned);
      var calls := states[|labels|].calls;
      states, labels := Extend(states, labels, Enter(CancelEntered));
      CountSnoc(calls, CancelEntered, InProgress);
      CountSnoc(calls, CancelEntered, HasReturned);
    }
  }

  ghost predicate Reachable(s: State) {
    exists states: seq<State>, labels, n: nat :: IsRun(states, labels) && n < |states| && states[n] == s
  }

  /** In this state a returned cancel and a returned registration mean that the live control is cancelled. */
  ghost predicate KeepsPromise(s: State) {
    forall i: nat, j: nat :: BothReturned(s, i, j) ==> s.calls[j].control in s.stopped
  }

  /** That holds whenever `unfinished` cancels are in progress and `returned` have returned. */
  ghost predicate Guaranteed(unfinished: nat, returned: nat) {
    forall s :: Reachable(s) && Count(s.calls, InProgress) == unfinished && Count(s.calls, HasReturned) == returned ==> KeepsPromise(s)
  }

  /** A cancel that has returned is a guarantee exactly when no other one is still in progress. */
  lemma GuaranteeCondition(unfinished: nat, returned: nat)
    ensures Guaranteed(unfinished, returned) <==> unfinished == 0 || returned == 0
  {
    if unfinished == 0 || returned == 0 {
      forall s, i: nat, j: nat | Reachable(s) && Count(s.calls, InProgress) == unfinished && Count(s.calls, HasReturned) == returned &&
          BothReturned(s, i, j)
        ensures s.calls[j].control in s.stopped
      {
        var states: seq<State>, labels, n: nat :| IsRun(states, labels) && n < |states| && states[n] == s;
        CountZero(s.calls, InProgress);
        CountZero(s.calls, HasReturned);
        NothingLostAtRest(states, labels, n, i, j);
      }
    } else {
      var states, labels := OthersEnter(0, unfinished, returned);
      Lost(states, labels);
    }
  }

  lemma Lost(states: seq<State>, labels: seq<Label>)
    requires IsRun(states, labels) && exists c, n, m: nat :: m > 0 && Delayed(states[|labels|], c, n, m)
    ensures Reachable(states[|labels|]) && !KeepsPromise(states[|labels|])
  {
    var s := states[|labels|];
    CountZero(s.calls, HasReturned);
    var i :| 0 <= i < |s.calls| && HasReturned(s.calls[i]);
    assert BothReturned(s, i, 0);
  }

  /** In terms of the number of cancels alone: the first return is a guarantee exactly when it is the only cancel. */
  lemma CancelsGuarantee(cancels: nat)
    ensures cancels <= 1 <==> forall s :: Reachable(s) && Count(s.calls, IsCancel) == cancels ==> KeepsPromise(s)
  {
    if cancels <= 1 {
      forall s | Reachable(s) && Count(s.calls, IsCancel) == cancels ensures KeepsPromise(s) {
        CountSplit(s.calls);
        var unfinished := Count(s.calls, InProgress);
        GuaranteeCondition(unfinished, cancels - unfinished);
      }
    } else {
      var states, labels := OthersReturn(0, cancels - 1);
      CountSplit(states[|labels|].calls);
      Lost(states, labels);
    }
  }

  // ---------- the token ----------

  /** What everybody else's steps leave to the call `me`. */
  ghost predicate Kept(me: nat, a: State, b: State)
    requires me < |a.calls|
  {
    |a.calls| <= |b.calls| && b.calls[me] == a.calls[me] && a.stopped <= b.stopped && (a.flag ==> b.flag)
  }

  lemma StepKeeps(me: nat, s: State, l: Label)
    requires me < |s.calls| && Enabled(s, l) && l != Advance(me)
    ensures Kept(me, s, Apply(s, l))
  {
  }

  class CancellationToken {
    var s: State
    ghost var states: seq<State>
    ghost var labels: seq<Label>

    ghost predicate Valid()
      reads this
    {
      IsRun(states, labels) && s == states[|states| - 1] && Inv(s)
    }

    constructor (controls: set<ControlId>)
      ensures Valid() && s == State(false, [], controls, {}, [])
    {
      s := State(false, [], controls, {}, []);
      states := [State(false, [], controls, {}, [])];
      labels := [];
    }

    method Do(l: Label)
      requires Valid() && Enabled(s, l)
      modifies this
      ensures Valid() && s == Apply(old(s), l)
    {
      StepInv(s, l);
      s := Apply(s, l);
      states := states + [s];
      labels := labels + [l];
    }

    /** Other threads enter and advance calls and drop controls, any number of times. */
    method Elsewhere(me: nat)
      requires Valid() && me < |s.calls|
      modifies this
      ensures Valid() && Kept(me, old(s), s)
    {
      var n: nat := *;
      while n > 0
        invariant Valid() && Kept(me, old(s), s)
      {
        var l: Label := *;
        if Enabled(s, l) && l != Advance(me) {
          StepKeeps(me, s, l);
          Do(l);
        }
        n := n - 1;
      }
    }

    /** Sets the flag, then cancels every control registered before the drain. */
    method Cancel() returns (me: nat)
      requires Valid()
      modifies this
      ensures Valid() && s.flag && me < |s.calls| && s.calls[me].CancelReturned?
      ensures forall j :: 0 <= j < |s.calls| && s.calls[j].RegisterReturned? && s.calls[j].control in s.live ==>
        s.calls[j].control in s.stopped || Held(s, Entry(j, s.calls[j].control))
    {
      me := |s.calls|;
      Do(Enter(CancelEntered));
      Elsewhere(me);
      Do(Advance(me));
      Elsewhere(me);
      Do(Advance(me));
      while s.calls[me].pending != []
        invariant Valid() && s.flag && me < |s.calls| && s.calls[me].Visiting?
        decreases |s.calls[me].pending|
      {
        Elsewhere(me);
        Do(Advance(me));
      }
      Elsewhere(me);
      Do(Advance(me));
      forall j | 0 <= j < |s.calls| && s.calls[j].RegisterReturned? && s.calls[j].control in s.live
        ensures s.calls[j].control in s.stopped || Held(s, Entry(j, s.calls[j].control))
      {
        NothingLost(states, labels, |labels|, me, j);
      }
    }

    /** Enters a live control, then looks at the flag once more. */
    method Register(c: ControlId) returns (me: nat)
      requires Valid() && c in s.live
      modifies this
      ensures Valid() && me < |s.calls| && s.calls[me] == RegisterReturned(c)
      ensures old(s.flag) ==> c in s.stopped
      ensures c in s.live ==> c in s.stopped || Entry(me, c) in s.registry || Held(s, Entry(me, c))
    {
      me := |s.calls|;
      Do(Enter(RegisterEntered(c)));
      Elsewhere(me);
      Do(Advance(me));
      Recheck(me, c);
      assert c in s.live ==> Located(s, me);
    }

    /** The second look: covers a drain that came before the push. */
    method Recheck(me: nat, c: ControlId)
      requires Valid() && me < |s.calls| && s.calls[me] == Pushed(c)
      modifies this
      ensures Valid() && me < |s.calls| && s.calls[me] == RegisterReturned(c)
      ensures old(s.flag) ==> c in s.stopped
    {
      Elsewhere(me);
      Do(Advance(me));
      if s.calls[me].Stopping? {
        Elsewhere(me);
        Do(Advance(me));
      }
    }
  }
}
