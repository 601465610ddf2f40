/** The 192-bit big-endian counter and the loops that move its record to and from a file. */
module NonceCounter {
  import opened Foundations
  import opened NonceCodec

  /** The big-endian value of a byte string. */
  function NumberOf(s: seq<byte>): nat {
    if s == [] then 0 else NumberOf(s[..|s| - 1]) * 256 + Value(s[|s| - 1])
  }

  function Power256(n: nat): (p: nat)
    ensures p > 0
  {
    if n == 0 then 1 else 256 * Power256(n - 1)
  }

  lemma {:induction false} NumberBound(s: seq<byte>)
    ensures NumberOf(s) < Power256(|s|)
  {
    if s == [] {
    } else {
      NumberBound(s[..|s| - 1]);
    }
  }

  lemma SplitNumber(a: nat, x: nat, b: nat, y: nat)
    requires x < 256 && y < 256 && a * 256 + x == b * 256 + y
    ensures a == b && x == y
  {
  }

  /** Distinct byte strings of one length are distinct numbers. */
  lemma {:induction false} NumberIsInjective(s: seq<byte>, t: seq<byte>)
    requires |s| == |t| && NumberOf(s) == NumberOf(t)
    ensures s == t
  {
    if s == [] {
    } else {
      var n := |s| - 1;
      SplitNumber(NumberOf(s[..n]), Value(s[n]), NumberOf(t[..n]), Value(t[n]));
      ValueIsInjective(s[n], t[n]);
      NumberIsInjective(s[..n], t[..n]);
      assert s == s[..n] + [s[n]] && t == t[..n] + [t[n]];
    }
  }

  /** Carries from the last byte; the flag is false when every byte overflowed. */
  function Increment(s: seq<byte>): (r: (seq<byte>, bool))
    ensures |r.0| == |s|
  {
    if s == [] then ([], false)
    else
      var n := |s| - 1;
      if s[n] != 255 then (s[..n] + [s[n] + 1], true)
      else
        var (front, ok) := Increment(s[..n]);
        (front + [0], ok)
  }

  lemma NextByteValue(b: byte)
    ensures b != 255 ==> Value(b + 1) == Value(b) + 1
    ensures b == 255 ==> Value(b) == 255
  {
    if b != 255 { NextByte(b); }
  }

  /** The increment adds one, or reports overflow exactly at the greatest value. */
  lemma {:induction false} IncrementAddsOne(s: seq<byte>)
    ensures var (t, ok) := Increment(s);
      && (ok <==> NumberOf(s) + 1 < Power256(|s|))
      && (ok ==> NumberOf(t) == NumberOf(s) + 1)
      && (!ok ==> NumberOf(t) == 0 && NumberOf(s) + 1 == Power256(|s|))
  {
    if s == [] {
    } else {
      var n := |s| - 1;
      var front := s[..n];
      NextByteValue(s[n]);
      NumberBound(front);
      var t := Increment(s).0;
      assert t[..n] == if s[n] != 255 then front else Increment(front).0;
      IncrementAddsOne(front);
      assert Value(0) == 0;
    }
  }

  /** Trailing full bytes become zero and carry into the rest. */
  lemma {:induction false} CarryRun(s: seq<byte>, i: nat)
    requires i <= |s| && forall k :: i <= k < |s| ==> s[k] == 255
    ensures Increment(s).0[..i] == Increment(s[..i]).0 && Increment(s).1 == Increment(s[..i]).1
    ensures forall k :: i <= k < |s| ==> Increment(s).0[k] == 0
    decreases |s|
  {
    if i == |s| {
      assert s[..i] == s;
    } else {
      var n := |s| - 1;
      CarryRun(s[..n], i);
      assert s[..n][..i] == s[..i];
    }
  }

  lemma CarryStops(s: seq<byte>, i: nat)
    requires i < |s| && s[i] != 255
    ensures Increment(s[..i + 1]) == (s[..i] + [s[i] + 1], true)
  {
    assert s[..i + 1][..i] == s[..i];
  }

  /** The carry loop, in place from the last byte. */
  method IncrementInPlace(a: array<byte>) returns (ok: bool)
    modifies a
    ensures a[..] == Increment(old(a[..])).0 && ok == Increment(old(a[..])).1
  {
    ghost var start := a[..];
    var i := a.Length;
    hide Increment;
    while i > 0
      invariant 0 <= i <= a.Length
      invariant forall k :: 0 <= k < i ==> a[k] == start[k]
      invariant forall k :: i <= k < a.Length ==> start[k] == 255 && a[k] == 0
    {
      i := i - 1;
      if a[i] != 255 {
        a[i] := a[i] + 1;
        ghost var result := Increment(start).0;
        CarryRun(start, i + 1);
        CarryStops(start, i);
        assert forall k :: 0 <= k <= i ==> a[k] == result[..i + 1][k];
        assert a[..] == result;
        return true;
      }
      a[i] := 0;
    }
    CarryRun(start, 0);
    assert start[..0] == [] && a[..] == Increment(start).0;
    ok := false;
    NothingToCarry();
  }

  lemma NothingToCarry()
    ensures !Increment([]).1
  {
  }

  // ----- short reads and writes -----

  /** What one system call did; a transfer is clipped to what was asked for and available. */
  datatype Outcome = Interrupted | Failed | Moved(count: nat)

  /** `Pending` means the process never came back from the loop. */
  datatype Transfer = Complete | CallFailed | NoProgress | Pending

  class File {
    var content: seq<byte>

    constructor (content: seq<byte>)
      ensures this.content == content
    {
      this.content := content;
    }
  }

  function Clip(a: nat, b: nat): nat {
    if a < b then a else b
  }

  /** The calls of `script` move `size` bytes before one of them fails, moves nothing, or the script ends. */
  predicate Delivers(script: seq<Outcome>, size: nat)
    decreases |script|
  {
    size == 0
    || (script != [] &&
        match script[0]
        case Interrupted => Delivers(script[1..], size)
        case Failed => false
        case Moved(count) => count > 0 && Delivers(script[1..], size - Clip(count, size)))
  }

  /** Whatever the kernel does, the file holds a prefix of the data, and all of it when complete. */
  method WriteAll(file: File, data: seq<byte>, script: seq<Outcome>) returns (result: Transfer, ghost written: nat)
    modifies file
    ensures written <= |data| && file.content == old(file.content) + data[..written]
    ensures result == Complete <==> written == |data|
    ensures result == Complete <==> Delivers(script, |data|)
    ensures result == Complete ==> file.content == old(file.content) + data
  {
    var offset: nat, call: nat := 0, 0;
    assert data[..0] == [];
    while offset < |data|
      invariant offset <= |data| && call <= |script|
      invariant file.content == old(file.content) + data[..offset]
      invariant Delivers(script[call..], |data| - offset) == Delivers(script, |data|)
      decreases |script| - call
    {
      if call == |script| {
        return Pending, offset;
      }
      var outcome := script[call];
      assert script[call..][1..] == script[call + 1..];
      call := call + 1;
      match outcome {
        case Interrupted =>
        case Failed => return CallFailed, offset;
        case Moved(count) =>
          var moved := Clip(count, |data| - offset);
          if moved == 0 {
            return NoProgress, offset;
          }
          file.content := file.content + data[offset..offset + moved];
          assert data[..offset] + data[offset..offset + moved] == data[..offset + moved];
          offset := offset + moved;
      }
    }
    assert data[..|data|] == data;
    return Complete, offset;
  }

  /** Whatever the kernel does, a complete read returns exactly the first bytes of the file. */
  method ReadAll(file: File, size: nat, script: seq<Outcome>) returns (result: Transfer, data: seq<byte>)
    ensures result == Complete ==> size <= |file.content| && data == file.content[..size]
    ensures result == Complete <==> size <= |file.content| && Delivers(script, size)
  {
    data := [];
    var call: nat := 0;
    while |data| < size
      invariant |data| <= size && |data| <= |file.content| && data == file.content[..|data|] && call <= |script|
      invariant size <= |file.content| ==> Delivers(script[call..], size - |data|) == Delivers(script, size)
      decreases |script| - call
    {
      if call == |script| {
        return Pending, data;
      }
      var outcome := script[call];
      assert script[call..][1..] == script[call + 1..];
      call := call + 1;
      match outcome {
        case Interrupted =>
        case Failed => return CallFailed, data;
        case Moved(count) =>
          var moved := Clip(count, Clip(size - |data|, |file.content| - |data|));
          if moved == 0 {
            return NoProgress, data;
          }
          data := data + file.content[|data|..|data| + moved];
      }
    }
    result := Complete;
  }

  // ----- loading -----

  datatype LoadError = InvalidSize | Undecodable(error: DecodeError) | ScopeMismatch

  /** What a caller of `scope` reads from the active file; an absent file starts at zero. */
  function LoadState(active: Option<seq<byte>>, scope: Scope): Result<CounterState, LoadError> {
    match active
    case None => Ok(CounterState(scope, ZeroBytes(24), false))
    case Some(content) =>
      if |content| != STATE_BYTES then Err(InvalidSize)
      else
        match Decode(content)
        case Err(error) => Err(Undecodable(error))
        case Ok(state) => if state.scope != scope then Err(ScopeMismatch) else Ok(state)
  }

  /** The state that is persisted before the current value may be returned. */
  function Updated(current: CounterState): CounterState {
    var (next, ok) := Increment(current.next);
    if ok then current.(next := next) else current.(exhausted := true)
  }

  /** How many values a state has used up: all of them once it is exhausted. */
  function Consumed(s: CounterState): nat {
    if s.exhausted then Power256(24) else NumberOf(s.next)
  }

  /** Persisting the update consumes exactly the value about to be returned. */
  lemma UpdateConsumesOne(current: CounterState)
    requires !current.exhausted
    ensures Consumed(Updated(current)) == NumberOf(current.next) + 1
    ensures Updated(current).scope == current.scope
  {
    IncrementAddsOne(current.next);
  }
}
