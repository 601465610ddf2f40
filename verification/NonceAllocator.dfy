/** The allocating call as straight-line code over a directory, with a fault possible at every system
    call: whatever happens, its effect is that of a possible run of one process. */
module NonceAllocator {
  import opened Foundations
  import opened NonceCodec
  import opened NonceCounter
  import opened NonceProtocol

  datatype AllocateError = SystemError | BadState(error: LoadError) | CounterExhausted

  /** Which system calls or hooks fail, and what the transfers do. */
  datatype Faults = Faults(
    openLock: bool, lock: bool, afterLock: bool, openState: bool, readCalls: seq<Outcome>,
    openTemporary: bool, writeCalls: seq<Outcome>, syncTemporary: bool, rename: bool, afterRename: bool,
    openDirectory: bool, syncDirectory: bool, afterSync: bool)

  /** A file that can be opened and is read to the end; one of another size is rejected unread. */
  predicate Readable(active: Option<seq<byte>>, faults: Faults) {
    active.Some? ==> !faults.openState && (|active.value| != STATE_BYTES || Delivers(faults.readCalls, STATE_BYTES))
  }

  /** What a call reads: the state, the reason it is rejected, or a system error. */
  function Read(active: Option<seq<byte>>, scope: Scope, faults: Faults): Result<CounterState, AllocateError> {
    if !Readable(active, faults) then Err(SystemError)
    else
      match LoadState(active, scope)
      case Err(error) => Err(BadState(error))
      case Ok(state) => Ok(state)
  }

  /** No system call before the read fails. */
  predicate CanRead(faults: Faults) {
    !faults.openLock && !faults.lock && !faults.afterLock
  }

  /** Every system call of persisting succeeds and the whole record is written. */
  predicate CanPersist(faults: Faults) {
    && !faults.openTemporary && Delivers(faults.writeCalls, STATE_BYTES) && !faults.syncTemporary
    && !faults.rename && !faults.afterRename && !faults.openDirectory && !faults.syncDirectory && !faults.afterSync
  }

  /** A loadable file of the scope with values left, and no fault on the way. */
  predicate Succeeds(active: Option<seq<byte>>, scope: Scope, faults: Faults) {
    && CanRead(faults) && CanPersist(faults)
    && Read(active, scope, faults).Ok? && !Read(active, scope, faults).value.exhausted
  }

  class Directory {
    var active: Option<seq<byte>>
    var temporary: Option<seq<byte>>

    /** One process in the phase `phase`; the lock is its own exactly while its phase holds it. */
    ghost function View(phase: Phase, returned: seq<Nonce>, lost: nat): System
      reads this
    {
      System(if HoldsLock(phase) then Some(0) else None, active, temporary, [phase], returned, lost)
    }

    /** Reads and decodes the active file. */
    method Load(scope: Scope, faults: Faults) returns (r: Result<CounterState, AllocateError>)
      ensures r == Read(active, scope, faults)
    {
      match active
      case None =>
        r := Ok(CounterState(scope, ZeroBytes(24), false));
      case Some(content) =>
        if faults.openState {
          return Err(SystemError);
        }
        if |content| != STATE_BYTES {
          return Err(BadState(InvalidSize));
        }
        var file := new File(content);
        var result, data := ReadAll(file, STATE_BYTES, faults.readCalls);
        if result != Complete {
          return Err(SystemError);
        }
        var encoded := new byte[STATE_BYTES](i requires 0 <= i < STATE_BYTES => data[i]);
        assert encoded[..] == content;
        var decoded := DecodeState(encoded);
        hide Decode;
        match decoded
        case Err(error) => r := Err(BadState(Undecodable(error)));
        case Ok(state) => r := if state.scope != scope then Err(BadState(ScopeMismatch)) else Ok(state);
    }

    /** The next value in a copy, carried in place. */
    method Advance(current: CounterState) returns (updated: CounterState)
      ensures updated == Updated(current)
    {
      var next := new byte[24](i requires 0 <= i < 24 => current.next[i]);
      assert next[..] == current.next;
      var ok := IncrementInPlace(next);
      hide Increment;
      updated := if ok then current.(next := next[..]) else current.(exhausted := true);
    }

    /** Truncates the temporary file and writes the image, as far as the calls get. */
    method WriteTemporary(current: CounterState, faults: Faults, ghost start: System, ghost before: seq<Event>)
      returns (ok: bool, ghost phase: Phase, ghost run: seq<Event>)
      requires Possible(start, before) && After(start, before) == View(Loaded(current), [], 0)
      modifies this`temporary
      ensures Possible(start, run) && After(start, run) == View(phase, [], 0)
      ensures phase.Writing? && phase.current == current
      ensures ok <==> Delivers(faults.writeCalls, STATE_BYTES)
      ensures ok ==> phase.offset == STATE_BYTES && temporary == Some(Image(current))
    {
      hide Possible, After;
      ghost var s := View(Loaded(current), [], 0);
      temporary := Some([]);
      phase := Writing(current, 0);
      run, s := Did(start, before, TruncateTemporary, s, View(phase, [], 0));
      var updated := Advance(current);
      var encoded := EncodeState(updated);
      var image := encoded[..];
      assert image == Image(current) && [] + image == image;
      hide Image;
      var file := new File([]);
      var result; ghost var written;
      result, written := WriteAll(file, image, faults.writeCalls);
      temporary := Some(file.content);
      if written > 0 {
        phase := Writing(current, written);
        run, s := Did(start, run, Write(written), s, View(phase, [], 0));
      }
      ok := result == Complete;
    }

    /** Writes, syncs and renames the image; the phase tells how far it got. */
    method Persist(current: CounterState, faults: Faults, ghost start: System, ghost before: seq<Event>)
      returns (ok: bool, ghost phase: Phase, ghost run: seq<Event>)
      requires Possible(start, before) && After(start, before) == View(Loaded(current), [], 0)
      modifies this
      ensures Possible(start, run) && After(start, run) == View(phase, [], 0) && HoldsLock(phase)
      ensures ok <==> CanPersist(faults)
      ensures ok ==> phase == DirectorySynced(current) && active == Some(Image(current))
    {
      hide Possible, After;
      phase, run := Loaded(current), before;
      if faults.openTemporary {
        return false, phase, run;
      }
      ok, phase, run := WriteTemporary(current, faults, start, run);
      if !ok || faults.syncTemporary {
        return false, phase, run;
      }
      ghost var s := View(phase, [], 0);
      phase := Synced(current);
      run, s := Did(start, run, SyncTemporary, s, View(phase, [], 0));
      if faults.rename {
        return false, phase, run;
      }
      active, temporary := temporary, None;
      phase := Renamed(current);
      run, s := Did(start, run, Rename, s, View(phase, [], 0));
      if faults.afterRename || faults.openDirectory || faults.syncDirectory {
        return false, phase, run;
      }
      phase := DirectorySynced(current);
      run, s := Did(start, run, SyncDirectory, s, View(phase, [], 0));
      ok := !faults.afterSync;
    }

    /** Opens the lock file and takes the lock; on a failure the call has ended. */
    method Acquire(scope: Scope, faults: Faults, ghost start: System) returns (ok: bool, ghost phase: Phase, ghost run: seq<Event>)
      requires start == View(Idle, [], 0)
      ensures Possible(start, run) && After(start, run) == View(phase, [], 0)
      ensures ok == CanRead(faults) && phase == if ok then Locked(scope) else Idle
    {
      hide Possible, After;
      ghost var s := start;
      EmptyRun(start);
      phase, run := Idle, [];
      if faults.openLock {
        return false, phase, run;
      }
      run, s := Did(start, run, Invoke(scope), s, View(Waiting(scope), [], 0));
      if faults.lock {
        run, s := Did(start, run, Die, s, View(Idle, [], 0));
        return false, phase, run;
      }
      run, s := Did(start, run, AcquireLock, s, View(Locked(scope), [], 0));
      if faults.afterLock {
        run, s := Did(start, run, Die, s, View(Idle, [], 0));
        return false, phase, run;
      }
      ok, phase := true, Locked(scope);
    }

    /** A whole call: exactly when nothing fails and values are left it returns the next one, with its
        successor on disk; otherwise an error, which may have used one up. */
    method Allocate(scope: Scope, faults: Faults) returns (r: Result<Nonce, AllocateError>, ghost run: seq<Event>)
      modifies this
      ensures Possible(old(View(Idle, [], 0)), run)
      ensures Ends(After(old(View(Idle, [], 0)), run), r, active, temporary)
      ensures r.Ok? <==> Succeeds(old(active), scope, faults)
      ensures r.Ok? ==> var current := Read(old(active), scope, faults).value;
        r.value == current.next && active == Some(Image(current))
      ensures r.Err? ==> ErrorTells(r.error, old(active), scope, faults)
    {
      hide Possible, After, CanRead, CanPersist, Readable;
      ghost var start := View(Idle, [], 0);
      var ok; ghost var phase;
      ok, phase, run := Acquire(scope, faults, start);
      if !ok {
        return Err(SystemError), run;
      }
      ghost var s := View(Locked(scope), [], 0);
      var loaded := Load(scope, faults);
      ReadIsLoad(active, scope, faults);
      if loaded == Err(SystemError) {
        run, s := Did(start, run, Die, s, View(Idle, [], 0));
        return Err(SystemError), run;
      }
      hide LoadState, Read;
      if loaded.Err? {
        run, s := Did(start, run, NonceProtocol.Action.Load, s, View(Idle, [], 0));
        return Err(loaded.error), run;
      }
      var current := loaded.value;
      if current.exhausted {
        run, s := Did(start, run, NonceProtocol.Action.Load, s, View(Idle, [], 0));
        return Err(CounterExhausted), run;
      }
      run, s := Did(start, run, NonceProtocol.Action.Load, s, View(Loaded(current), [], 0));
      ok, phase, run := Persist(current, faults, start, run);
      s := View(phase, [], 0);
      if !ok {
        run, s := Did(start, run, Die, s, View(Idle, [], if AfterRename(phase) then 1 else 0));
        return Err(SystemError), run;
      }
      run, s := Did(start, run, Return, s, View(Idle, [current.next], 0));
      r := Ok(current.next);
    }
  }

  /** Unless a system call fails, what is read is what the file holds. */
  lemma ReadIsLoad(active: Option<seq<byte>>, scope: Scope, faults: Faults)
    ensures var r := Read(active, scope, faults);
      r != Err(SystemError) ==>
        match LoadState(active, scope)
        case Err(error) => r == Err(BadState(error))
        case Ok(state) => r == Ok(state)
  {
  }

  /** Which error a failed call returns: it is `CounterExhausted` exactly when the file is read and used up, and
      names the fault of a record exactly when that record is read; otherwise a system call has failed. */
  ghost predicate ErrorTells(error: AllocateError, active: Option<seq<byte>>, scope: Scope, faults: Faults) {
    var read := Read(active, scope, faults);
    && (error == CounterExhausted <==> CanRead(faults) && read.Ok? && read.value.exhausted)
    && (forall e :: error == BadState(e) <==> CanRead(faults) && read == Err(BadState(e)))
  }

  lemma EmptyRun(s: System)
    ensures Possible(s, []) && After(s, []) == s
  {
  }

  /** The run ends idle, with these files and exactly the value this call returned. */
  ghost predicate Ends(t: System, r: Result<Nonce, AllocateError>, active: Option<seq<byte>>, temporary: Option<seq<byte>>) {
    && t.active == active && t.temporary == temporary && t.processes == [Idle] && t.lock == None
    && t.returned == if r.Ok? then [r.value] else []
  }

  /** Records one step of the single process. */
  lemma Did(start: System, run: seq<Event>, a: Action, before: System, after: System) returns (longer: seq<Event>, now: System)
    requires Possible(start, run) && After(start, run) == before
    requires Enabled(before, 0, a) && Next(before, 0, a) == after
    ensures longer == run + [Event(0, a)] && now == after
    ensures Possible(start, longer) && After(start, longer) == now
  {
    ExtendRun(start, run, Event(0, a));
    longer, now := run + [Event(0, a)], after;
  }
}
