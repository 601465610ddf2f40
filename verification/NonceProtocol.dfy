/** The persistent allocator as a protocol: any number of processes, interleaved step by step, each of
    which may die or throw at any step.

    Death releases the lock; a rename replaces the active file as a whole.  The lock is released when
    the call returns, and that is when the value counts as returned. */
module NonceProtocol {
  import opened Foundations
  import opened NonceCodec
  import opened NonceCounter

  type Pid = nat

  /** Where a process stands in its call. */
  datatype Phase =
    | Idle
    | Waiting(scope: Scope)
    | Locked(scope: Scope)
    | Loaded(current: CounterState)
    | Writing(current: CounterState, offset: nat)
    | Synced(current: CounterState)
    | Renamed(current: CounterState)
    | DirectorySynced(current: CounterState)

  /** `lost` counts the calls that died or threw after the rename. */
  datatype System = System(
    lock: Option<Pid>, active: Option<seq<byte>>, temporary: Option<seq<byte>>,
    processes: seq<Phase>, returned: seq<Nonce>, lost: nat)

  datatype Action =
    | Invoke(scope: Scope)
    | AcquireLock
    | Load
    | TruncateTemporary
    | Write(count: nat)
    | SyncTemporary
    | Rename
    | SyncDirectory
    | Return
    | Die

  predicate HoldsLock(phase: Phase) {
    !phase.Idle? && !phase.Waiting?
  }

  predicate AfterRename(phase: Phase) {
    phase.Renamed? || phase.DirectorySynced?
  }

  function Image(current: CounterState): Record {
    Encode(Updated(current))
  }

  predicate Enabled(s: System, p: Pid, a: Action) {
    p < |s.processes| &&
    var phase := s.processes[p];
    match a
    case Invoke(_) => phase.Idle?
    case AcquireLock => phase.Waiting? && s.lock == None
    case Load => phase.Locked?
    case TruncateTemporary => phase.Loaded?
    case Write(count) => phase.Writing? && 1 <= count <= STATE_BYTES - phase.offset && s.temporary.Some?
    case SyncTemporary => phase.Writing? && phase.offset == STATE_BYTES
    case Rename => phase.Synced? && s.temporary.Some?
    case SyncDirectory => phase.Renamed?
    case Return => phase.DirectorySynced?
    case Die => !phase.Idle?
  }

  function Goto(s: System, p: Pid, phase: Phase): System
    requires p < |s.processes|
  {
    s.(processes := s.processes[p := phase])
  }

  /** The call ends and its descriptors close. */
  function Leave(s: System, p: Pid): System
    requires p < |s.processes|
  {
    Goto(s.(lock := if HoldsLock(s.processes[p]) then None else s.lock), p, Idle)
  }

  function Next(s: System, p: Pid, a: Action): System
    requires Enabled(s, p, a)
  {
    var phase := s.processes[p];
    match a
    case Invoke(scope) => Goto(s, p, Waiting(scope))
    case AcquireLock => Goto(s.(lock := Some(p)), p, Locked(phase.scope))
    case Load =>
      var loaded := LoadState(s.active, phase.scope);
      if loaded.Err? || loaded.value.exhausted then Leave(s, p) else Goto(s, p, Loaded(loaded.value))
    case TruncateTemporary => Goto(s.(temporary := Some([])), p, Writing(phase.current, 0))
    case Write(count) =>
      var more := Image(phase.current)[phase.offset..phase.offset + count];
      Goto(s.(temporary := Some(s.temporary.value + more)), p, Writing(phase.current, phase.offset + count))
    case SyncTemporary => Goto(s, p, Synced(phase.current))
    case Rename => Goto(s.(active := s.temporary, temporary := None), p, Renamed(phase.current))
    case SyncDirectory => Goto(s, p, DirectorySynced(phase.current))
    case Return => Leave(s.(returned := s.returned + [phase.current.next]), p)
    case Die => Leave(s.(lost := if AfterRename(phase) then s.lost + 1 else s.lost), p)
  }

  datatype Event = Event(p: Pid, action: Action)

  predicate Possible(s: System, run: seq<Event>)
    decreases |run|
  {
    run == [] || (Enabled(s, run[0].p, run[0].action) && Possible(Next(s, run[0].p, run[0].action), run[1..]))
  }

  function After(s: System, run: seq<Event>): System
    requires Possible(s, run)
    decreases |run|
  {
    if run == [] then s else After(Next(s, run[0].p, run[0].action), run[1..])
  }

  /** Any number of idle processes over a directory that has no state file or one whole valid record. */
  predicate Initial(s: System) {
    && s.lock == None && s.returned == [] && s.lost == 0
    && (forall p :: 0 <= p < |s.processes| ==> s.processes[p] == Idle)
    && ValidActive(s.active)
  }

  predicate ValidActive(active: Option<seq<byte>>) {
    active.Some? ==> |active.value| == STATE_BYTES && Decode(active.value).Ok?
  }

  /** How many values the active file has used up. */
  function Used(active: Option<seq<byte>>): nat
    requires ValidActive(active)
  {
    match active
    case None => 0
    case Some(record) => Consumed(Decode(record).value)
  }

  // ----- the invariant -----

  /** What the phase of the lock holder says about the two files. */
  ghost predicate PhaseHolds(s: System, phase: Phase)
    requires ValidActive(s.active)
  {
    match phase
    case Idle => true
    case Waiting(_) => true
    case Locked(_) => true
    case Loaded(current) => Current(s, current)
    case Writing(current, offset) => Current(s, current) && offset <= STATE_BYTES && s.temporary == Some(Image(current)[..offset])
    case Synced(current) => Current(s, current) && s.temporary == Some(Image(current))
    case Renamed(current) => Replaced(s, current)
    case DirectorySynced(current) => Replaced(s, current)
  }

  /** The file, if there is one, belongs to `scope`. */
  ghost predicate ScopeAllows(active: Option<seq<byte>>, scope: Scope)
    requires ValidActive(active)
  {
    active.Some? ==> Decode(active.value).value.scope == scope
  }

  /** The next value to return is the first unused one. */
  ghost predicate Current(s: System, current: CounterState)
    requires ValidActive(s.active)
  {
    !current.exhausted && NumberOf(current.next) == Used(s.active) && ScopeAllows(s.active, current.scope)
  }

  /** The value to return is the last one the active file has used up. */
  ghost predicate Replaced(s: System, current: CounterState)
    requires ValidActive(s.active)
  {
    NumberOf(current.next) + 1 == Used(s.active)
  }

  /** Values used up but not yet returned or lost. */
  function Pending(s: System): nat {
    if s.lock.Some? && s.lock.value < |s.processes| && AfterRename(s.processes[s.lock.value]) then 1 else 0
  }

  ghost predicate Exclusive(s: System) {
    && (s.lock.Some? ==> s.lock.value < |s.processes|)
    && forall p :: 0 <= p < |s.processes| ==> (HoldsLock(s.processes[p]) <==> s.lock == Some(p))
  }

  /** Returned values increase, each is unused no more, and none is skipped but by a loss. */
  ghost predicate Ordered(returned: seq<Nonce>, base: nat, lost: nat) {
    && (forall i :: 0 <= i < |returned| ==> base + i <= NumberOf(returned[i]) <= base + i + lost)
    && (forall i, j :: 0 <= i < j < |returned| ==> NumberOf(returned[i]) < NumberOf(returned[j]))
  }

  ghost predicate Below(returned: seq<Nonce>, bound: int) {
    forall i :: 0 <= i < |returned| ==> NumberOf(returned[i]) < bound
  }

  ghost predicate Invariant(s: System, base: nat) {
    && ValidActive(s.active)
    && Exclusive(s)
    && (forall p :: 0 <= p < |s.processes| ==> PhaseHolds(s, s.processes[p]))
    && Ordered(s.returned, base, s.lost)
    && Below(s.returned, Used(s.active) - Pending(s))
    && Used(s.active) == base + |s.returned| + s.lost + Pending(s)
  }

  lemma LoadIsCurrent(s: System, scope: Scope)
    requires ValidActive(s.active) && LoadState(s.active, scope).Ok? && !LoadState(s.active, scope).value.exhausted
    ensures Current(s, LoadState(s.active, scope).value)
  {
    hide Decode, NumberOf;
    ZeroNumber();
  }

  lemma ZeroNumber()
    ensures NumberOf(ZeroBytes(24)) == 0
  {
    AllZeros(ZeroBytes(24));
  }

  lemma {:induction false} AllZeros(s: seq<byte>)
    requires forall i :: 0 <= i < |s| ==> s[i] == 0
    ensures NumberOf(s) == 0
  {
    if s == [] {
    } else {
      AllZeros(s[..|s| - 1]);
      assert Value(0) == 0;
    }
  }

  /** The renamed image is one whole valid record that has used up exactly one value more. */
  lemma ImageUsesOne(s: System, current: CounterState)
    requires ValidActive(s.active) && Current(s, current)
    ensures ValidActive(Some(Image(current)))
    ensures Used(Some(Image(current))) == Used(s.active) + 1 == NumberOf(current.next) + 1
    ensures ScopeAllows(Some(Image(current)), current.scope)
  {
    hide Encode, Decode, NumberOf, Consumed, Updated;
    DecodeEncode(Updated(current));
    UpdateConsumesOne(current);
  }

  /** A step that touches neither file nor history, from outside or inside the critical section. */
  lemma QuietStep(s: System, t: System, base: nat, p: Pid)
    requires Invariant(s, base) && p < |s.processes|
    requires t.active == s.active && t.returned == s.returned && t.lost == s.lost
    requires |t.processes| == |s.processes| && forall q :: 0 <= q < |s.processes| && q != p ==> t.processes[q] == s.processes[q]
    requires Exclusive(t) && Pending(t) == Pending(s)
    requires PhaseHolds(t, t.processes[p])
    requires HoldsLock(s.processes[p]) || t.temporary == s.temporary
    ensures Invariant(t, base)
  {
    hide Decode, Encode, NumberOf, Image, Ordered;
    forall q | 0 <= q < |t.processes| ensures PhaseHolds(t, t.processes[q]) {
      assert PhaseHolds(s, s.processes[q]);
    }
  }

  lemma WritePrefix(r: Record, offset: nat, count: nat)
    requires offset + count <= STATE_BYTES
    ensures r[..offset] + r[offset..offset + count] == r[..offset + count]
    ensures r[..STATE_BYTES] == r
  {
  }

  lemma QuietActionKeepsInvariant(s: System, base: nat, p: Pid, a: Action)
    requires Invariant(s, base) && Enabled(s, p, a)
    requires !a.Rename? && !a.Return? && !a.Die?
    ensures Invariant(Next(s, p, a), base)
  {
    var t := Next(s, p, a);
    var phase := s.processes[p];
    assert PhaseHolds(s, phase);
    hide Decode, Encode, NumberOf, Image, Ordered, LoadState, Below, Used, Updated;
    if a.Load? && LoadState(s.active, phase.scope).Ok? && !LoadState(s.active, phase.scope).value.exhausted {
      LoadIsCurrent(s, phase.scope);
    }
    if phase.Writing? && a.Write? {
      WritePrefix(Image(phase.current), phase.offset, a.count);
    }
    if phase.Writing? {
      WritePrefix(Image(phase.current), STATE_BYTES, 0);
    }
    QuietStep(s, t, base, p);
  }

  /** The commit point: the active file becomes the image, as a whole. */
  lemma RenameKeepsInvariant(s: System, base: nat, p: Pid)
    requires Invariant(s, base) && Enabled(s, p, Rename)
    ensures Invariant(Next(s, p, Rename), base)
  {
    var t := Next(s, p, Rename);
    var current := s.processes[p].current;
    assert PhaseHolds(s, s.processes[p]);
    hide Decode, Encode, NumberOf, Image, Ordered, Used;
    ImageUsesOne(s, current);
    forall q | 0 <= q < |t.processes| ensures PhaseHolds(t, t.processes[q]) {
      assert PhaseHolds(s, s.processes[q]);
    }
  }

  /** The returned value is above all earlier ones. */
  lemma ReturnKeepsInvariant(s: System, base: nat, p: Pid)
    requires Invariant(s, base) && Enabled(s, p, Return)
    ensures Invariant(Next(s, p, Return), base)
  {
    var t := Next(s, p, Return);
    assert PhaseHolds(s, s.processes[p]);
    hide Decode, Encode, NumberOf, Image, Used;
    forall q | 0 <= q < |t.processes| ensures PhaseHolds(t, t.processes[q]) {
      assert PhaseHolds(s, s.processes[q]);
    }
  }

  lemma DieKeepsInvariant(s: System, base: nat, p: Pid)
    requires Invariant(s, base) && Enabled(s, p, Die)
    ensures Invariant(Next(s, p, Die), base)
  {
    var t := Next(s, p, Die);
    assert PhaseHolds(s, s.processes[p]);
    hide Decode, Encode, NumberOf, Image, Used;
    forall q | 0 <= q < |t.processes| ensures PhaseHolds(t, t.processes[q]) {
      assert PhaseHolds(s, s.processes[q]);
    }
  }

  lemma StepKeepsInvariant(s: System, base: nat, p: Pid, a: Action)
    requires Invariant(s, base) && Enabled(s, p, a)
    ensures Invariant(Next(s, p, a), base)
  {
    hide Invariant, Next;
    match a {
      case Rename => RenameKeepsInvariant(s, base, p);
      case Return => ReturnKeepsInvariant(s, base, p);
      case Die => DieKeepsInvariant(s, base, p);
      case _ => QuietActionKeepsInvariant(s, base, p, a);
    }
  }

  lemma {:induction false} RunKeepsInvariant(s: System, base: nat, run: seq<Event>)
    requires Invariant(s, base) && Possible(s, run)
    ensures Invariant(After(s, run), base)
    decreases |run|
  {
    hide Invariant, Next;
    if run == [] {
    } else {
      StepKeepsInvariant(s, base, run[0].p, run[0].action);
      RunKeepsInvariant(Next(s, run[0].p, run[0].action), base, run[1..]);
    }
  }

  lemma StepKeepsScope(s: System, base: nat, p: Pid, a: Action, scope: Scope)
    requires Invariant(s, base) && Enabled(s, p, a) && s.active.Some? && ScopeAllows(s.active, scope)
    ensures var t := Next(s, p, a); t.active.Some? && ValidActive(t.active) && ScopeAllows(t.active, scope)
  {
    assert PhaseHolds(s, s.processes[p]);
    hide Decode, Encode, NumberOf, Image, Used, Ordered, Below, Exclusive;
    if a.Rename? {
      ImageUsesOne(s, s.processes[p].current);
    }
  }

  // ----- the theorems -----

  /** Once a state file exists it keeps its scope for ever: a caller of another scope is never served. */
  lemma {:induction false} ScopeIsKept(s: System, base: nat, run: seq<Event>, scope: Scope)
    requires Invariant(s, base) && Possible(s, run) && s.active.Some? && ScopeAllows(s.active, scope)
    ensures var t := After(s, run); t.active.Some? && ValidActive(t.active) && ScopeAllows(t.active, scope)
    decreases |run|
  {
    hide Next, Decode, ScopeAllows, PhaseHolds, Exclusive, Ordered, Below, Used;
    if run == [] {
    } else {
      StepKeepsScope(s, base, run[0].p, run[0].action, scope);
      StepKeepsInvariant(s, base, run[0].p, run[0].action);
      ScopeIsKept(Next(s, run[0].p, run[0].action), base, run[1..], scope);
    }
  }

  /** In every interleaving with every pattern of deaths: the active file stays whole and valid,
      returned nonces strictly increase, so none is returned twice, and every one is used up on disk. */
  lemma AllocatorIsSafe(s: System, run: seq<Event>)
    requires Initial(s) && Possible(s, run)
    ensures var t := After(s, run);
      && ValidActive(t.active)
      && (forall i, j :: 0 <= i < j < |t.returned| ==> NumberOf(t.returned[i]) < NumberOf(t.returned[j]))
      && (forall i, j :: 0 <= i < j < |t.returned| ==> t.returned[i] != t.returned[j])
      && (forall i :: 0 <= i < |t.returned| ==> Used(s.active) <= NumberOf(t.returned[i]) < Used(t.active))
  {
    InitialInvariant(s);
    RunKeepsInvariant(s, Used(s.active), run);
    hide After, Possible, Decode, NumberOf, Used, PhaseHolds, Exclusive;
  }

  lemma InitialInvariant(s: System)
    requires Initial(s)
    ensures Invariant(s, Used(s.active))
  {
    hide Decode, NumberOf, Consumed;
  }

  /** Exact accounting: what the file has used up was returned, was lost to a call that died after its
      rename, or is held by the one call between rename and return. */
  lemma NothingElseIsSkipped(s: System, run: seq<Event>)
    requires Initial(s) && Possible(s, run)
    ensures var t := After(s, run);
      && ValidActive(t.active)
      && Used(t.active) == Used(s.active) + |t.returned| + t.lost + Pending(t)
      && Ordered(t.returned, Used(s.active), t.lost)
  {
    InitialInvariant(s);
    RunKeepsInvariant(s, Used(s.active), run);
    hide After, Possible, Decode, NumberOf, Used, PhaseHolds, Exclusive;
  }

  /** Without deaths after a rename the returned values are consecutive. */
  lemma NoLossNoGap(s: System, run: seq<Event>, i: nat)
    requires Initial(s) && Possible(s, run) && After(s, run).lost == 0 && i < |After(s, run).returned|
    ensures NumberOf(After(s, run).returned[i]) == Used(s.active) + i
  {
    NothingElseIsSkipped(s, run);
    hide After, Possible, Decode, NumberOf, Used;
  }

  predicate Exhausted(active: Option<seq<byte>>) {
    active.Some? && |active.value| == STATE_BYTES && Decode(active.value).Ok? && Decode(active.value).value.exhausted
  }

  lemma FullIsExhausted(active: Option<seq<byte>>)
    requires ValidActive(active) && Used(active) >= Power256(24)
    ensures Exhausted(active)
  {
    hide Decode, NumberOf;
    if active.Some? {
      NumberBound(Decode(active.value).value.next);
    }
  }

  /** The greatest nonce is returned at most once, and after it the file is exhausted for good. */
  lemma GreatestIsReturnedOnce(s: System, run: seq<Event>, i: nat)
    requires Initial(s) && Possible(s, run) && i < |After(s, run).returned|
    requires NumberOf(After(s, run).returned[i]) + 1 == Power256(24)
    ensures i == |After(s, run).returned| - 1
    ensures Exhausted(After(s, run).active)
  {
    AllocatorIsSafe(s, run);
    var t := After(s, run);
    hide After, Possible, Decode, NumberOf, Power256;
    if i < |t.returned| - 1 {
      NumberBound(t.returned[i + 1]);
      assert false;
    }
    FullIsExhausted(t.active);
  }

  lemma {:induction false} ExtendRun(s: System, run: seq<Event>, e: Event)
    requires Possible(s, run) && Enabled(After(s, run), e.p, e.action)
    ensures Possible(s, run + [e]) && After(s, run + [e]) == Next(After(s, run), e.p, e.action)
    decreases |run|
  {
    hide Enabled, Next;
    if run == [] {
      assert run + [e] == [e];
    } else {
      ExtendRun(Next(s, run[0].p, run[0].action), run[1..], e);
      assert (run + [e])[1..] == run[1..] + [e];
    }
  }
}
