/** The serial port as the senders see it: an ordered log of the calls made on it, the bytes that reached
    the display, and a script saying which calls fail. Call number `n` (counting from 0 over the port's
    life) fails exactly when `n` is in `failing`; a failing call transfers nothing. A Python `write` may
    also accept fewer bytes than it was given: `short[n]` is how many call `n` accepts. */
module Transport {
  import opened Bytes

  datatype Call = Clear | ResetInput | ResetOutput | Write(data: seq<byte>) | Flush

  /** How many of `data`'s bytes write call number `n` accepts. */
  function Accepted(short: map<nat, nat>, n: nat, data: seq<byte>): (k: nat)
    ensures k <= |data|
    ensures n !in short ==> k == |data|
  {
    if n in short && short[n] < |data| then short[n] else |data|
  }

  /** The bytes call number `n` transfers when it does not fail. */
  function Transferred(short: map<nat, nat>, n: nat, call: Call): (bs: seq<byte>)
    ensures !call.Write? ==> bs == []
    ensures call.Write? ==> bs <= call.data
    ensures call.Write? && n !in short ==> bs == call.data
  {
    match call
    case Write(data) => data[..Accepted(short, n, data)]
    case _ => []
  }

  /** None of `calls`, made as calls number `base`, `base + 1`, ..., fails. */
  predicate Succeeds(failing: set<nat>, base: nat, calls: seq<Call>)
  {
    forall n :: base <= n < base + |calls| ==> n !in failing
  }

  /** The calls a sender that stops at the first failure makes: all of them, or up to and including the
      first that fails. */
  function Attempted(failing: set<nat>, base: nat, calls: seq<Call>): seq<Call>
  {
    if calls == [] then []
    else
      var prefix := calls[..|calls| - 1];
      if Succeeds(failing, base, prefix) then calls else Attempted(failing, base, prefix)
  }

  /** The bytes such a sender puts on the wire: those of every call before the first failure. */
  function Delivered(failing: set<nat>, short: map<nat, nat>, base: nat, calls: seq<Call>): seq<byte>
  {
    if calls == [] then []
    else
      var prefix := calls[..|calls| - 1];
      Delivered(failing, short, base, prefix) +
      (if Succeeds(failing, base, calls) then Transferred(short, base + |prefix|, calls[|calls| - 1]) else [])
  }

  /** The bytes of all the writes among `calls`, in order, each in full. */
  function Payload(calls: seq<Call>): seq<byte>
  {
    if calls == [] then []
    else Payload(calls[..|calls| - 1]) + Carried(calls[|calls| - 1])
  }

  /** The bytes a call carries: a write's data, nothing for the others. */
  function Carried(call: Call): seq<byte>
  {
    if call.Write? then call.data else []
  }

  /** When the `k`th call is the first to fail, the sender has made exactly the first `k + 1` calls, and
      delivered what the first `k` transferred; otherwise it made every call. */
  lemma {:induction false} AttemptedStopsAt(failing: set<nat>, short: map<nat, nat>, base: nat, calls: seq<Call>, k: nat)
    requires k < |calls| && Succeeds(failing, base, calls[..k]) && base + k in failing
    ensures Attempted(failing, base, calls) == calls[..k + 1]
    ensures Delivered(failing, short, base, calls) == Delivered(failing, short, base, calls[..k])
    ensures !Succeeds(failing, base, calls)
    decreases |calls|
  {
    var prefix := calls[..|calls| - 1];
    if k == |calls| - 1 {
      assert prefix == calls[..k];
      assert calls[..k + 1] == calls;
    } else {
      assert prefix[..k] == calls[..k];
      assert prefix[..k + 1] == calls[..k + 1];
      AttemptedStopsAt(failing, short, base, prefix, k);
      assert !Succeeds(failing, base, prefix);
      assert base + k < base + |calls|;
      assert !Succeeds(failing, base, calls);
    }
  }

  /** Without failures and short writes, the sender delivers every write in full. */
  lemma {:induction false} DeliveredAll(failing: set<nat>, short: map<nat, nat>, base: nat, calls: seq<Call>)
    requires Succeeds(failing, base, calls)
    requires forall n :: base <= n < base + |calls| ==> n !in short
    ensures Attempted(failing, base, calls) == calls
    ensures Delivered(failing, short, base, calls) == Payload(calls)
  {
    if calls != [] {
      var prefix := calls[..|calls| - 1];
      assert Succeeds(failing, base, prefix);
      DeliveredAll(failing, short, base, prefix);
      if calls[|calls| - 1].Write? {
        var data := calls[|calls| - 1].data;
        assert base + |prefix| !in short;
        assert data[..|data|] == data;
      }
    }
  }

  /** One more call that does not fail extends what was attempted and delivered by what it transfers. */
  lemma Step(failing: set<nat>, short: map<nat, nat>, base: nat, calls: seq<Call>, k: nat)
    requires k < |calls| && Succeeds(failing, base, calls[..k]) && base + k !in failing
    ensures Succeeds(failing, base, calls[..k + 1])
    ensures Delivered(failing, short, base, calls[..k + 1]) ==
            Delivered(failing, short, base, calls[..k]) + Transferred(short, base + k, calls[k])
  {
    assert calls[..k + 1][..k] == calls[..k];
  }

  /** A sender that made every call without a failure attempted them all. */
  lemma AttemptedAll(failing: set<nat>, base: nat, calls: seq<Call>)
    requires Succeeds(failing, base, calls)
    ensures Attempted(failing, base, calls) == calls
  {
    if calls != [] {
      assert Succeeds(failing, base, calls[..|calls| - 1]);
    }
  }

  /** One more call adds the bytes it carries to the payload. */
  lemma PayloadSnoc(calls: seq<Call>, call: Call)
    ensures Payload(calls + [call]) == Payload(calls) + Carried(call)
  {
    assert (calls + [call])[..|calls|] == calls;
  }

  /** The payload of consecutive call lists is the payload of the first followed by the second. */
  lemma {:induction false} PayloadAppend(a: seq<Call>, b: seq<Call>)
    ensures Payload(a + b) == Payload(a) + Payload(b)
  {
    if b == [] {
      assert a + b == a;
    } else {
      var c, b', last := a + b, b[..|b| - 1], b[|b| - 1];
      assert c[..|c| - 1] == a + b' && c[|c| - 1] == last;
      PayloadAppend(a, b');
      assert Payload(c) == Payload(a + b') + Carried(last);
      assert Payload(b) == Payload(b') + Carried(last);
    }
  }

  /** A port that held `log0` and `written0` now holds `log` and `written`, having carried out the first
      `k` of `calls` without a failure. */
  ghost predicate Progressed(failing: set<nat>, short: map<nat, nat>, log0: seq<Call>, written0: seq<byte>, base: nat,
                             calls: seq<Call>, k: nat, log: seq<Call>, written: seq<byte>)
  {
    k <= |calls| && base == |log0| && log == log0 + calls[..k] && Succeeds(failing, base, calls[..k]) &&
    written == written0 + Delivered(failing, short, base, calls[..k])
  }

  /** The same port after a sender of `calls` stopped at a failing call. */
  ghost predicate Stopped(failing: set<nat>, short: map<nat, nat>, log0: seq<Call>, written0: seq<byte>, base: nat,
                          calls: seq<Call>, log: seq<Call>, written: seq<byte>)
  {
    log == log0 + Attempted(failing, base, calls) &&
    written == written0 + Delivered(failing, short, base, calls) &&
    !Succeeds(failing, base, calls)
  }

  /** The `k`th call went through. */
  lemma Advanced(failing: set<nat>, short: map<nat, nat>, log0: seq<Call>, written0: seq<byte>, base: nat,
                 calls: seq<Call>, k: nat, log: seq<Call>, written: seq<byte>)
    requires Progressed(failing, short, log0, written0, base, calls, k, log, written)
    requires k < |calls| && base + k !in failing
    ensures Progressed(failing, short, log0, written0, base, calls, k + 1, log + [calls[k]],
                       written + Transferred(short, base + k, calls[k]))
  {
    Step(failing, short, base, calls, k);
    Extend(log0, calls, k, log);
    Regroup(written0, Delivered(failing, short, base, calls[..k]), Transferred(short, base + k, calls[k]), written);
  }

  /** Appending to a log that holds `written0` then `delivered`. */
  lemma Regroup(written0: seq<byte>, delivered: seq<byte>, more: seq<byte>, written: seq<byte>)
    requires written == written0 + delivered
    ensures written + more == written0 + (delivered + more)
  {
  }

  /** A log that held `log0` and the first `k` of `calls` holds, after one more, the first `k + 1`. */
  lemma Extend<T>(log0: seq<T>, calls: seq<T>, k: nat, log: seq<T>)
    requires k < |calls| && log == log0 + calls[..k]
    ensures log + [calls[k]] == log0 + calls[..k + 1]
  {
    assert calls[..k + 1] == calls[..k] + [calls[k]];
  }

  /** The `k`th call failed. */
  lemma StoppedAt(failing: set<nat>, short: map<nat, nat>, log0: seq<Call>, written0: seq<byte>, base: nat,
                  calls: seq<Call>, k: nat, log: seq<Call>, written: seq<byte>)
    requires Progressed(failing, short, log0, written0, base, calls, k, log, written)
    requires k < |calls| && base + k in failing
    ensures Stopped(failing, short, log0, written0, base, calls, log + [calls[k]], written)
  {
    AttemptedStopsAt(failing, short, base, calls, k);
    assert calls[..k] + [calls[k]] == calls[..k + 1];
  }

  /** Every call went through. */
  lemma Finished(failing: set<nat>, short: map<nat, nat>, log0: seq<Call>, written0: seq<byte>, base: nat,
                 calls: seq<Call>, log: seq<Call>, written: seq<byte>)
    requires Progressed(failing, short, log0, written0, base, calls, |calls|, log, written)
    ensures log == log0 + Attempted(failing, base, calls) && Succeeds(failing, base, calls)
    ensures written == written0 + Delivered(failing, short, base, calls)
  {
    assert calls[..|calls|] == calls;
    AttemptedAll(failing, base, calls);
  }

  /** The Rust `serialport` handle: `clear`, `write_all` and `flush`, each returning an error or not. */
  class SerialPort {
    const failing: set<nat>
    var log: seq<Call>
    var written: seq<byte>

    constructor(failing: set<nat>)
      ensures this.failing == failing && log == [] && written == []
    {
      this.failing := failing;
      log := [];
      written := [];
    }

    method ClearAll() returns (ok: bool)
      modifies this
      ensures log == old(log) + [Call.Clear] && written == old(written)
      ensures ok <==> |old(log)| !in failing
    {
      ok := |log| !in failing;
      log := log + [Call.Clear];
    }

    /** `write_all`: every byte, or an error. */
    method WriteAll(data: seq<byte>) returns (ok: bool)
      modifies this
      ensures log == old(log) + [Call.Write(data)]
      ensures ok <==> |old(log)| !in failing
      ensures written == old(written) + (if ok then data else [])
    {
      ok := |log| !in failing;
      log := log + [Call.Write(data)];
      if ok {
        written := written + data;
      }
    }

    method Flush() returns (ok: bool)
      modifies this
      ensures log == old(log) + [Call.Flush] && written == old(written)
      ensures ok <==> |old(log)| !in failing
    {
      ok := |log| !in failing;
      log := log + [Call.Flush];
    }
  }

  /** The pyserial connection: `reset_input_buffer`, `reset_output_buffer`, `write` and `flush`, each of
      which may raise. `write` returns how many bytes it accepted, which may be fewer than given. */
  class Connection {
    const failing: set<nat>
    const short: map<nat, nat>
    var log: seq<Call>
    var written: seq<byte>

    constructor(failing: set<nat>, short: map<nat, nat>)
      ensures this.failing == failing && this.short == short && log == [] && written == []
    {
      this.failing := failing;
      this.short := short;
      log := [];
      written := [];
    }

    method ResetInputBuffer() returns (ok: bool)
      modifies this
      ensures log == old(log) + [Call.ResetInput] && written == old(written)
      ensures ok <==> |old(log)| !in failing
    {
      ok := |log| !in failing;
      log := log + [Call.ResetInput];
    }

    method ResetOutputBuffer() returns (ok: bool)
      modifies this
      ensures log == old(log) + [Call.ResetOutput] && written == old(written)
      ensures ok <==> |old(log)| !in failing
    {
      ok := |log| !in failing;
      log := log + [Call.ResetOutput];
    }

    method Write(data: seq<byte>) returns (ok: bool, count: nat)
      modifies this
      ensures log == old(log) + [Call.Write(data)]
      ensures ok <==> |old(log)| !in failing
      ensures ok ==> count == Accepted(short, |old(log)|, data)
      ensures written == old(written) + (if ok then data[..count] else [])
    {
      ok := |log| !in failing;
      count := 0;
      if ok {
        count := Accepted(short, |log|, data);
        written := written + data[..count];
      }
      log := log + [Call.Write(data)];
    }

    method Flush() returns (ok: bool)
      modifies this
      ensures log == old(log) + [Call.Flush] && written == old(written)
      ensures ok <==> |old(log)| !in failing
    {
      ok := |log| !in failing;
      log := log + [Call.Flush];
    }
  }
}
