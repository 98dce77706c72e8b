/** The wakeup protocol of src/timer.rs: the thread that owns the timer schedules wakeups through a
    shared word, `wakeup_state`, and a wakeup thread sleeps until the tick found there. One step per
    atomic operation; any interleaving. */
module Wakeup {
  import opened Ticks

  const TERMINATE_THREAD: u64 := 0

  /** Where the owner of the timer is. `tick` is the argument of `schedule_readiness`. */
  datatype Owner =
    | OutsideCall
    | Unsetting(tick: u64)          // `poll_to` found nothing: about to unset readiness
    | Loading(tick: u64)            // about to load `wakeup_state`
    | Trying(tick: u64, curr: u64)  // in the loop, with the value it believes current
    | Unparking                     // has moved the wakeup forward: about to unpark the thread

  /** Where the wakeup thread is. `until` is its local `sleep_until_tick`. */
  datatype Thread =
    | Reloading
    | Checking(until: u64)
    | Parked(until: u64)
    | Swapping(until: u64)
    | SettingReadable
    | Terminated

  /** `live` maps the live timeouts to their ticks; `clock` is the tick shown by the clock;
      `parkToken` is the permit of `unpark`. */
  datatype State = State(live: map<nat, nat>, clock: nat, wakeup: u64, readable: bool,
                         parkToken: bool, owner: Owner, thread: Thread)

  /** The timer's side of the contract: what `poll_to` and `register` pass to `schedule_readiness`
      is a positive tick, not later than any live timeout. */
  predicate IsBound(live: map<nat, nat>, tick: u64) {
    0 < tick && forall id <- live :: tick <= live[id]
  }

  /** `register`, on a timer that is new or has just been polled empty. */
  predicate Init(s: State) {
    && s.wakeup == U64_MAX && !s.readable && !s.parkToken
    && s.owner.Loading? && IsBound(s.live, s.owner.tick)
    && s.thread == Reloading
  }

  datatype Step =
    | Insert(id: nat, tick: u64)
    | Remove(id: nat)
    | PollEmpty(tick: u64)
    | Unset
    | Load
    | Return
    | Cas
    | Unpark
    | ClockAdvances
    | ThreadLoad
    | ThreadCheck
    | ThreadWake
    | ThreadSwap
    | ThreadSetReadable

  predicate Enabled(s: State, step: Step) {
    match step
    case Insert(id, tick) => s.owner.OutsideCall? && id !in s.live && 0 < tick
    case Remove(id) => s.owner.OutsideCall? && id in s.live        // cancelled, or fired by a poll
    case PollEmpty(tick) => s.owner.OutsideCall? && IsBound(s.live, tick)
    case Unset => s.owner.Unsetting?
    case Load => s.owner.Loading?
    case Return => s.owner.Trying? && s.owner.curr <= s.owner.tick
    case Cas => s.owner.Trying? && s.owner.tick < s.owner.curr
    case Unpark => s.owner.Unparking?
    case ClockAdvances => true
    case ThreadLoad => s.thread.Reloading?
    case ThreadCheck => s.thread.Checking?
    case ThreadWake => s.thread.Parked?                            // permit, timeout, or spurious
    case ThreadSwap => s.thread.Swapping?
    case ThreadSetReadable => s.thread.SettingReadable?
  }

  function Apply(s: State, step: Step): State
    requires Enabled(s, step)
  {
    match step
    case Insert(id, tick) => s.(live := s.live[id := tick], owner := Loading(tick))
    case Remove(id) => s.(live := s.live - {id})
    case PollEmpty(tick) => s.(owner := Unsetting(tick))
    case Unset => s.(readable := false, owner := Loading(s.owner.tick))
    case Load => s.(owner := Trying(s.owner.tick, s.wakeup))
    case Return => s.(owner := OutsideCall)
    case Cas =>
      if s.wakeup == s.owner.curr then s.(wakeup := s.owner.tick, owner := Unparking)
      else s.(owner := Trying(s.owner.tick, s.wakeup))
    case Unpark => s.(parkToken := true, owner := OutsideCall)
    case ClockAdvances => s.(clock := s.clock + 1)
    case ThreadLoad => s.(thread := Checking(s.wakeup))
    case ThreadCheck =>
      var until := s.thread.until;
      if until == TERMINATE_THREAD then s.(thread := Terminated)
      else if s.clock < until then s.(thread := Parked(until))
      else s.(thread := Swapping(until))
    case ThreadWake => s.(parkToken := false, thread := Reloading)
    case ThreadSwap =>
      if s.wakeup == s.thread.until then s.(wakeup := U64_MAX, thread := SettingReadable)
      else s.(thread := Checking(s.wakeup))
    case ThreadSetReadable => s.(readable := true, thread := Checking(U64_MAX))
  }

  ghost predicate Run(states: seq<State>) {
    && states != []
    && Init(states[0])
    && forall i {:trigger states[i + 1]} | 0 <= i < |states| - 1 ::
         exists step :: Enabled(states[i], step) && states[i + 1] == Apply(states[i], step)
  }

  // ----- the invariant -----

  /** A timeout at `tick` will be noticed: the shared word is early enough, or readiness is set or
      about to be. */
  predicate Covered(s: State, tick: nat) {
    s.wakeup <= tick || s.readable || s.thread.SettingReadable?
  }

  predicate AllCovered(s: State) {
    forall id <- s.live :: Covered(s, s.live[id])
  }

  predicate OwnerOk(s: State) {
    match s.owner
    case OutsideCall => AllCovered(s)
    case Unparking => AllCovered(s)
    case Unsetting(tick) => IsBound(s.live, tick)
    case Loading(tick) => 0 < tick && forall id <- s.live :: tick <= s.live[id] || Covered(s, s.live[id])
    case Trying(tick, curr) =>
      && 0 < tick
      && (s.wakeup == curr || s.readable || s.thread.SettingReadable?)
      && forall id <- s.live :: tick <= s.live[id] || Covered(s, s.live[id])
  }

  /** The thread has been told, or is about to be told, that the shared word has changed. */
  predicate Alerted(s: State) {
    s.parkToken || s.owner.Unparking?
  }

  predicate ThreadOk(s: State) {
    match s.thread
    case Reloading => true
    case Checking(until) => 0 < until && (s.wakeup == until || (s.wakeup < until && Alerted(s)))
    case Parked(until) => 0 < until && (s.wakeup == until || (s.wakeup < until && Alerted(s)))
    case Swapping(until) => 0 < until <= s.clock
    case SettingReadable => s.wakeup == U64_MAX || Alerted(s)
    case Terminated => false
  }

  predicate Invariant(s: State) {
    0 < s.wakeup && OwnerOk(s) && ThreadOk(s)
  }

  predicate OfOwner(step: Step) {
    step.Insert? || step.Remove? || step.PollEmpty? || step.Unset? || step.Load? || step.Return? || step.Cas?
        || step.Unpark?
  }

  /** A step of the clock or the thread never uncovers a timeout. */
  lemma ThreadKeepsOwnerOk(s: State, step: Step)
    requires Invariant(s) && Enabled(s, step) && !OfOwner(step)
    ensures OwnerOk(Apply(s, step))
  {
    var s' := Apply(s, step);
    assert forall id <- s.live :: Covered(s, s.live[id]) ==> Covered(s', s.live[id]);
  }

  lemma OwnerKeepsOwnerOk(s: State, step: Step)
    requires Invariant(s) && Enabled(s, step) && OfOwner(step)
    ensures OwnerOk(Apply(s, step))
  {
    var s' := Apply(s, step);
    if !step.Unset? {
      assert forall id | id in s.live && id in s'.live :: Covered(s, s.live[id]) ==> Covered(s', s.live[id]);
    }
  }

  lemma StepKeepsInvariant(s: State, step: Step)
    requires Invariant(s) && Enabled(s, step)
    ensures Invariant(Apply(s, step))
  {
    hide AllCovered, Covered, IsBound;
    if OfOwner(step) {
      OwnerKeepsOwnerOk(s, step);
    } else {
      ThreadKeepsOwnerOk(s, step);
    }
  }

  lemma {:induction false} RunKeepsInvariant(states: seq<State>, n: nat)
    requires Run(states) && n < |states|
    ensures Invariant(states[n])
  {
    if n > 0 {
      RunKeepsInvariant(states, n - 1);
      var i := n - 1;
      assert states[i + 1] == states[n];
      var step :| Enabled(states[i], step) && states[n] == Apply(states[i], step);
      StepKeepsInvariant(states[i], step);
    }
  }

  // ----- what it means -----

  /** In every interleaving, whenever no call of the timer is running, every live timeout is covered;
      the shared word never says "terminate" and the thread never ends. */
  lemma NoDeadlineMissed(states: seq<State>, n: nat)
    requires Run(states) && n < |states|
    ensures var s := states[n];
            && (s.owner.OutsideCall? ==> forall id <- s.live ::
                  s.wakeup <= s.live[id] || s.readable || s.thread.SettingReadable?)
            && s.wakeup != TERMINATE_THREAD && !s.thread.Terminated?
  {
    RunKeepsInvariant(states, n);
  }

  /** A thread whose deadline is later than the shared word is about to look again: a permit is
      available or on its way. */
  lemma LateThreadIsAlerted(states: seq<State>, n: nat)
    requires Run(states) && n < |states|
    ensures var s := states[n];
            (s.thread.Checking? || s.thread.Parked?) && s.wakeup < s.thread.until ==> s.parkToken || s.owner.Unparking?
  {
    RunKeepsInvariant(states, n);
  }

  /** The thread never sleeps past a deadline: parked without a permit while no call is running, it
      waits for a tick that is not later than any live timeout, or readiness is already set. So once
      a timeout is due, a sleeping thread's time is up. */
  lemma NeverOversleeps(states: seq<State>, n: nat)
    requires Run(states) && n < |states|
    requires var s := states[n];
             s.owner.OutsideCall? && s.thread.Parked? && !s.parkToken && !s.readable
    ensures var s := states[n];
            && (forall id <- s.live :: s.thread.until <= s.live[id])
            && ((exists id :: id in s.live && s.live[id] <= s.clock) ==> s.thread.until <= s.clock)
  {
    RunKeepsInvariant(states, n);
  }

  // ----- what the thread does about it -----

  /** The thread would not go on by itself: it is parked, has no permit, and its time is not up. */
  predicate Asleep(s: State) {
    s.thread.Parked? && !s.parkToken && s.clock < s.thread.until
  }

  /** The thread's own next step; none while it is asleep or after its end. */
  function ThreadStep(s: State): State {
    match s.thread
    case Reloading => Apply(s, ThreadLoad)
    case Checking(_) => Apply(s, ThreadCheck)
    case Parked(_) => if Asleep(s) then s else Apply(s, ThreadWake)
    case Swapping(_) => Apply(s, ThreadSwap)
    case SettingReadable => Apply(s, ThreadSetReadable)
    case Terminated => s
  }

  function ThreadSteps(s: State, n: nat): State
    decreases n
  {
    if n == 0 then s else ThreadSteps(ThreadStep(s), n - 1)
  }

  lemma SettingSteps(s: State)
    requires s.thread.SettingReadable?
    ensures ThreadSteps(s, 1).readable
  {
    assert ThreadSteps(s, 1) == ThreadSteps(ThreadStep(s), 0);
  }

  lemma SwappingDue(s: State)
    requires s.thread == Swapping(s.wakeup)
    ensures ThreadSteps(s, 2).readable
  {
    SettingSteps(ThreadStep(s));
  }

  /** A thread that looks at a shared word that is due sets readable within three steps. */
  lemma CheckingDue(s: State)
    requires s.thread == Checking(s.wakeup) && 0 < s.wakeup <= s.clock
    ensures ThreadSteps(s, 3).readable
  {
    SwappingDue(ThreadStep(s));
  }

  lemma ReloadingDue(s: State)
    requires s.thread == Reloading && 0 < s.wakeup <= s.clock
    ensures ThreadSteps(s, 4).readable
  {
    CheckingDue(ThreadStep(s));
  }

  lemma SwappingLate(s: State)
    requires s.thread.Swapping? && s.thread.until != s.wakeup && 0 < s.wakeup <= s.clock
    ensures ThreadSteps(s, 4).readable
  {
    CheckingDue(ThreadStep(s));
  }

  lemma ParkedDue(s: State)
    requires s.thread.Parked? && !Asleep(s) && 0 < s.wakeup <= s.clock
    ensures ThreadSteps(s, 5).readable
  {
    ReloadingDue(ThreadStep(s));
  }

  /** A thread that believes in a later wakeup parks and comes back at once, or finds out when it swaps. */
  lemma CheckingLate(s: State) returns (n: nat)
    requires s.thread.Checking? && 0 < s.wakeup <= s.clock && s.wakeup < s.thread.until && s.parkToken
    ensures n <= 6 && ThreadSteps(s, n).readable
  {
    var s1 := ThreadStep(s);
    if s1.thread.Parked? {
      ParkedDue(s1);
      n := 6;
    } else {
      SwappingLate(s1);
      n := 5;
    }
  }

  /** Whatever has happened before, once a timeout is due and no call is running, the thread by itself
      sets the timer readable within six of its steps; it does not fall asleep meanwhile. */
  lemma DueBecomesReadable(states: seq<State>, k: nat, id: nat) returns (n: nat)
    requires Run(states) && k < |states|
    requires states[k].owner.OutsideCall? && id in states[k].live && states[k].live[id] <= states[k].clock
    ensures n <= 6 && ThreadSteps(states[k], n).readable
  {
    RunKeepsInvariant(states, k);
    hide ThreadSteps, Apply;
    var s := states[k];
    assert Covered(s, s.live[id]);
    if s.readable {
      n := 0;
      NoSteps(s);
    } else {
      match s.thread
      case Reloading =>
        ReloadingDue(s);
        n := 4;
      case Checking(until) =>
        if until == s.wakeup {
          CheckingDue(s);
          n := 3;
        } else {
          n := CheckingLate(s);
        }
      case Parked(until) =>
        ParkedDue(s);
        n := 5;
      case Swapping(until) =>
        if until == s.wakeup {
          SwappingDue(s);
          n := 2;
        } else {
          SwappingLate(s);
          n := 4;
        }
      case SettingReadable =>
        SettingSteps(s);
        n := 1;
    }
  }

  lemma NoSteps(s: State)
    ensures ThreadSteps(s, 0) == s
  {
  }

  // ----- readiness is taken back -----

  predicate Sets(s: State, s': State) {
    s.thread.SettingReadable? && s'.readable
  }

  /** The step is that of an empty poll that takes readiness back. */
  predicate TakesBack(s: State, s': State) {
    s.owner.Unsetting? && s'.owner.Loading?
  }

  predicate TakesBackAt(states: seq<State>, i: nat)
    requires i + 1 < |states|
  {
    TakesBack(states[i], states[i + 1])
  }

  lemma InitNotReadable(states: seq<State>)
    requires Run(states)
    ensures !states[0].readable
  {
  }

  lemma ReadableStep(s: State, step: Step)
    requires Enabled(s, step) && Apply(s, step).readable
    ensures !TakesBack(s, Apply(s, step))
    ensures s.readable || Sets(s, Apply(s, step))
  {
  }

  /** A timer is readable only because the thread has set it so since the last empty poll, and the thread
      sets it only when a wakeup is due. */
  lemma {:induction false} ReadableSince(states: seq<State>, k: nat) returns (j: nat)
    requires Run(states) && k < |states| && states[k].readable
    ensures j < k && Sets(states[j], states[j + 1])
    ensures forall i {:trigger TakesBackAt(states, i)} | j <= i < k :: !TakesBackAt(states, i)
  {
    hide Enabled, Apply, Init, Sets, TakesBack;
    InitNotReadable(states);
    var i := k - 1;
    assert states[i + 1] == states[k];
    var step :| Enabled(states[i], step) && states[k] == Apply(states[i], step);
    ReadableStep(states[i], step);
    if states[i].readable {
      j := ReadableSince(states, i);
    } else {
      j := i;
    }
  }

  lemma GivesUp(s: State, step: Step)
    requires ThreadOk(s) && Enabled(s, step) && !s.thread.SettingReadable? && Apply(s, step).thread.SettingReadable?
    ensures s.wakeup <= s.clock && Apply(s, step).wakeup == U64_MAX
  {
  }

  /** The thread gives up a wakeup, to set readable, only when the clock has reached it. */
  lemma NeverEarly(states: seq<State>, k: nat)
    requires Run(states) && k + 1 < |states|
    requires !states[k].thread.SettingReadable? && states[k + 1].thread.SettingReadable?
    ensures states[k].wakeup <= states[k].clock && states[k + 1].wakeup == U64_MAX
  {
    hide Enabled, Apply, Init, OwnerOk, ThreadOk;
    RunKeepsInvariant(states, k);
    assert states[k + 1] == states[k + 1];
    var step :| Enabled(states[k], step) && states[k + 1] == Apply(states[k], step);
    GivesUp(states[k], step);
  }
}
