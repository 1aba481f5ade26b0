// Reading one image message over USB: a first transfer brings the head, the following
// ones store the rest behind it in the same buffer.
module StreamRead {
  import opened LittleEndian

  const SUCCESS: int := 0
  const FIRST_LIMIT: nat := 1024
  const PACK_MAGIC: nat := 0xAA55AA55
  const HEAD_AND_TIMESTAMP: nat := 20   // 12 bytes of head and 8 of time stamp
  const NO_DEVICE: int := -4

  // What a bulk transfer does: bring some bytes, or fail with a negative status after
  // having stored some all the same.
  datatype Transfer = Bytes(data: seq<Byte>) | Failed(data: seq<Byte>, status: int)

  // How the call ends. `Overrun` stands for a transfer asked to write past the buffer.
  datatype Outcome = Status(code: int) | Overrun

  // The device's answer to request `k`, for `want` bytes: entry `k` of the script, and
  // none once the script has run out.
  function Answer(script: seq<Transfer>, k: nat, want: nat): (t: Transfer)
    ensures |t.data| <= want
    ensures t.Failed? ==> t.status < 0
  {
    if k >= |script| then Failed([], NO_DEVICE)
    else
      var data := if |script[k].data| <= want then script[k].data else script[k].data[..want];
      match script[k]
      case Bytes(_) => Bytes(data)
      case Failed(_, status) => Failed(data, if status < 0 then status else NO_DEVICE)
  }

  // ----- The call as a function -----

  function StoreAt(mem: seq<Byte>, offset: nat, data: seq<Byte>): (r: seq<Byte>)
    requires offset + |data| <= |mem|
    ensures |r| == |mem|
  {
    mem[..offset] + data + mem[offset + |data|..]
  }

  function Field(mem: seq<Byte>, offset: nat): nat
    requires offset + 4 <= |mem|
  {
    DecodeUint32(mem[offset..offset + 4])
  }

  // What has happened so far: the last status, the buffer, the transfers and the resets.
  datatype Progress = Progress(outcome: Outcome, mem: seq<Byte>, done: seq<Transfer>, resets: nat) {
    predicate Good() {
      outcome == Status(SUCCESS)
    }

    function Transferred(offset: nat, t: Transfer): (p: Progress)
      requires offset + |t.data| <= |mem|
      ensures |p.mem| == |mem|
    {
      Progress(Status(if t.Failed? then t.status else SUCCESS), StoreAt(mem, offset, t.data), done + [t], resets)
    }

    // One more reset of the endpoint, if it is called for.
    function Reset(wanted: bool, resetStatus: nat -> int): Progress {
      if wanted && Good() then this.(outcome := Status(resetStatus(resets)), resets := resets + 1) else this
    }

    // The transfers that store `missing` bytes from `offset` on, as request `k` and following.
    function Rest(offset: nat, missing: nat, script: seq<Transfer>, k: nat): (p: Progress)
      requires offset + missing <= |mem|
      ensures |p.mem| == |mem|
      decreases if k < |script| then |script| - k else 0
    {
      var t := Answer(script, k, missing);
      var p := Transferred(offset, t);
      if t.Failed? || |t.data| == missing then p
      else p.Rest(offset + |t.data|, missing - |t.data|, script, k + 1)
    }
  }

  // The first transfer and the resets that a short head and a bad magic call for.
  function AfterHead(mem: seq<Byte>, script: seq<Transfer>, resetStatus: nat -> int): (p: Progress)
    requires FIRST_LIMIT <= |mem|
    ensures |p.mem| == |mem|
  {
    var t := Answer(script, 0, FIRST_LIMIT);
    var p := Progress(Status(SUCCESS), mem, [], 0).Transferred(0, t);
    var p1 := p.Reset(|t.data| < HEAD_AND_TIMESTAMP, resetStatus);
    p1.Reset(Field(p1.mem, 0) != PACK_MAGIC, resetStatus)
  }

  // stream_read. `control` is the status of the request for a frame, `script` what the
  // device transfers, `resetStatus(i)` what endpoint reset i reports. After a short or a
  // misdirected head the call resets the endpoint and, if that works, goes on with
  // whatever head is in the buffer. The subtraction is unsigned: a message shorter than
  // the first transfer asks for almost four gigabytes.
  function Call(mem: seq<Byte>, control: int, script: seq<Transfer>, resetStatus: nat -> int): Progress
    requires FIRST_LIMIT <= |mem|
  {
    if control != SUCCESS then Progress(Status(control), mem, [], 0)
    else
      var p := AfterHead(mem, script, resetStatus);
      if !p.Good() then p
      else
        var first := |Answer(script, 0, FIRST_LIMIT).data|;
        var missing := (Field(p.mem, 4) - first) % UINT32_RANGE;
        if first + missing > |mem| then p.(outcome := Overrun) else p.Rest(first, missing, script, 1)
  }

  // ----- What the transfers bring -----

  function AllData(ts: seq<Transfer>): seq<Byte> {
    if ts == [] then [] else AllData(ts[..|ts| - 1]) + ts[|ts| - 1].data
  }

  predicate AllOk(ts: seq<Transfer>) {
    forall i :: 0 <= i < |ts| ==> ts[i].Bytes?
  }

  lemma AllDataAppend(ts: seq<Transfer>, t: Transfer)
    ensures AllData(ts + [t]) == AllData(ts) + t.data
  {
    assert (ts + [t])[..|ts|] == ts;
  }

  // Transfer k answers a request for what was missing by then; only the one after the
  // head may ask for nothing.
  predicate InTurn(script: seq<Transfer>, done: seq<Transfer>, length: nat, k: nat)
    requires k < |done|
  {
    var n := |AllData(done[..k])|;
    n <= length && (k > 1 ==> n < length) && done[k] == Answer(script, k, length - n)
  }

  predicate AnswersInTurn(script: seq<Transfer>, done: seq<Transfer>, length: nat) {
    forall k :: 1 <= k < |done| ==> InTurn(script, done, length, k)
  }

  lemma AnswerInTurn(script: seq<Transfer>, done: seq<Transfer>, length: nat, t: Transfer)
    requires AnswersInTurn(script, done, length) && |AllData(done)| <= length
    requires |done| > 1 ==> |AllData(done)| < length
    requires t == Answer(script, |done|, length - |AllData(done)|)
    ensures AnswersInTurn(script, done + [t], length)
  {
    forall k | 1 <= k < |done + [t]| ensures InTurn(script, done + [t], length, k) {
      if k < |done| {
        assert InTurn(script, done, length, k);
        assert (done + [t])[..k] == done[..k];
      } else {
        assert (done + [t])[..k] == done;
      }
    }
  }

  // The bytes are in the buffer in order, and behind them is what was there before.
  predicate Holds(p: Progress, mem: seq<Byte>, length: nat)
    requires length <= |mem|
  {
    |AllData(p.done)| <= length && p.mem == AllData(p.done) + mem[|AllData(p.done)|..]
  }

  lemma TransferHolds(p: Progress, mem: seq<Byte>, length: nat, t: Transfer)
    requires length <= |mem| && Holds(p, mem, length) && |AllData(p.done)| + |t.data| <= length
    ensures Holds(p.Transferred(|AllData(p.done)|, t), mem, length)
    ensures AllData(p.Transferred(|AllData(p.done)|, t).done) == AllData(p.done) + t.data
  {
    AllDataAppend(p.done, t);
    var n := |AllData(p.done)|;
    assert p.mem[..n] == AllData(p.done);
    assert p.mem[n + |t.data|..] == mem[n + |t.data|..];
  }

  // Everything that has come is stored, and has been asked for.
  predicate Stored(p: Progress, mem: seq<Byte>, length: nat, script: seq<Transfer>)
    requires length <= |mem|
  {
    Holds(p, mem, length) && AnswersInTurn(script, p.done, length)
  }

  // `r` is how transfers that go on from `p` end.
  predicate EndsRight(p: Progress, r: Progress, mem: seq<Byte>, length: nat, script: seq<Transfer>)
    requires length <= |mem|
  {
    && Stored(r, mem, length, script)
    && p.done < r.done && r.resets == p.resets && r.outcome.Status?
    && (r.Good() <==> AllOk(r.done)) && (r.Good() ==> |AllData(r.done)| == length)
  }

  lemma TransferStores(p: Progress, mem: seq<Byte>, length: nat, script: seq<Transfer>, n: nat, k: nat)
    requires length <= |mem| && Stored(p, mem, length, script) && AllOk(p.done)
    requires n == |AllData(p.done)| && k == |p.done| && (k > 1 ==> n < length)
    ensures var t := Answer(script, k, length - n);
            var p' := p.Transferred(n, t);
            && Stored(p', mem, length, script) && |AllData(p'.done)| == n + |t.data| && |p'.done| == k + 1
            && (AllOk(p'.done) <==> t.Bytes?)
  {
    var t := Answer(script, k, length - n);
    TransferHolds(p, mem, length, t);
    AnswerInTurn(script, p.done, length, t);
    assert (p.done + [t])[k] == t;
  }

  lemma RestUnfolds(p: Progress, offset: nat, missing: nat, script: seq<Transfer>, k: nat)
    requires offset + missing <= |p.mem|
    ensures var t := Answer(script, k, missing);
            var p' := p.Transferred(offset, t);
            p.Rest(offset, missing, script, k) ==
            if t.Failed? || |t.data| == missing then p'
            else p'.Rest(offset + |t.data|, missing - |t.data|, script, k + 1)
  {
  }

  // Where the transfers end after one that leaves something missing.
  lemma RestGoesOn(p: Progress, mem: seq<Byte>, length: nat, script: seq<Transfer>, n: nat, k: nat, t: Transfer)
    requires n + |t.data| < length <= |mem| == |p.mem| && t == Answer(script, k, length - n) && t.Bytes?
    requires var p' := p.Transferred(n, t);
             EndsRight(p', p'.Rest(n + |t.data|, length - n - |t.data|, script, k + 1), mem, length, script)
    ensures EndsRight(p, p.Rest(n, length - n, script, k), mem, length, script)
  {
    RestUnfolds(p, n, length - n, script, k);
    var r := p.Rest(n, length - n, script, k);
    assert p.done < p.Transferred(n, t).done < r.done;
  }

  // And after one that fails or completes the message.
  lemma RestStops(p: Progress, mem: seq<Byte>, length: nat, script: seq<Transfer>, n: nat, k: nat, t: Transfer)
    requires n + |t.data| <= length <= |mem| == |p.mem| && t == Answer(script, k, length - n)
    requires t.Failed? || n + |t.data| == length
    requires var p' := p.Transferred(n, t);
             Stored(p', mem, length, script) && (AllOk(p'.done) <==> t.Bytes?) && |AllData(p'.done)| == n + |t.data|
    ensures EndsRight(p, p.Rest(n, length - n, script, k), mem, length, script)
  {
    RestUnfolds(p, n, length - n, script, k);
  }

  // Whatever the device does, the bytes of all its transfers are stored one after the
  // other, each request asks for exactly what is missing, nothing else in the buffer
  // changes, and the transfers end with success exactly when everything has come.
  lemma {:induction false} RestStoresAll(
    p: Progress, mem: seq<Byte>, length: nat, script: seq<Transfer>, n: nat, k: nat)
    requires length <= |mem| && Stored(p, mem, length, script) && AllOk(p.done)
    requires n == |AllData(p.done)| && k == |p.done| && (k > 1 ==> n < length)
    ensures EndsRight(p, p.Rest(n, length - n, script, k), mem, length, script)
    decreases if k < |script| then |script| - k else 0
  {
    TransferStores(p, mem, length, script, n, k);
    var t := Answer(script, k, length - n);
    if t.Bytes? && |t.data| < length - n {
      RestStoresAll(p.Transferred(n, t), mem, length, script, n + |t.data|, k + 1);
      RestGoesOn(p, mem, length, script, n, k, t);
    } else {
      RestStops(p, mem, length, script, n, k, t);
    }
  }

  lemma FirstTransferHolds(mem: seq<Byte>, script: seq<Transfer>, resetStatus: nat -> int)
    requires FIRST_LIMIT <= |mem|
    ensures var t := Answer(script, 0, FIRST_LIMIT);
            var p := AfterHead(mem, script, resetStatus);
            && p.done == [t] && AllData([t]) == t.data && p.mem == t.data + mem[|t.data|..]
            && (p.Good() ==> t.Bytes?)
  {
    AllDataAppend([], Answer(script, 0, FIRST_LIMIT));
    assert [] + [Answer(script, 0, FIRST_LIMIT)] == [Answer(script, 0, FIRST_LIMIT)];
  }

  // The request for a frame and the first transfer work, and so do the resets they call for.
  predicate HeadRead(mem: seq<Byte>, control: int, script: seq<Transfer>, resetStatus: nat -> int)
    requires FIRST_LIMIT <= |mem|
  {
    var t := Answer(script, 0, FIRST_LIMIT);
    var short := |t.data| < HEAD_AND_TIMESTAMP;
    var misdirected := Field(StoreAt(mem, 0, t.data), 0) != PACK_MAGIC;
    && control == SUCCESS && t.Bytes?
    && (short || misdirected ==> resetStatus(0) == SUCCESS)
    && (short && misdirected ==> resetStatus(1) == SUCCESS)
  }

  // The length that the head in the buffer announces after the first transfer.
  function Announced(mem: seq<Byte>, script: seq<Transfer>): nat
    requires FIRST_LIMIT <= |mem|
  {
    Field(StoreAt(mem, 0, Answer(script, 0, FIRST_LIMIT).data), 4)
  }

  lemma AnnouncedByDevice(mem: seq<Byte>, script: seq<Transfer>)
    requires FIRST_LIMIT <= |mem|
    ensures var data := Answer(script, 0, FIRST_LIMIT).data;
            |data| >= 8 ==> Announced(mem, script) == DecodeUint32(data[4..8])
  {
    var data := Answer(script, 0, FIRST_LIMIT).data;
    if |data| >= 8 {
      assert StoreAt(mem, 0, data)[4..8] == data[4..8];
    }
  }

  lemma HeadReadIffGood(mem: seq<Byte>, control: int, script: seq<Transfer>, resetStatus: nat -> int)
    requires FIRST_LIMIT <= |mem|
    ensures HeadRead(mem, control, script, resetStatus) <==>
            control == SUCCESS && AfterHead(mem, script, resetStatus).Good()
    ensures AfterHead(mem, script, resetStatus).outcome.Status?
    ensures AfterHead(mem, script, resetStatus).mem == StoreAt(mem, 0, Answer(script, 0, FIRST_LIMIT).data)
  {
    var t := Answer(script, 0, FIRST_LIMIT);
    var p := Progress(Status(SUCCESS), mem, [], 0).Transferred(0, t);
    var p1 := p.Reset(|t.data| < HEAD_AND_TIMESTAMP, resetStatus);
    assert p1.mem == p.mem == StoreAt(mem, 0, t.data);
  }

  // The call gets past the head exactly when these steps work; and then it either has a
  // message that fits, or it asks for a transfer past the buffer.
  lemma CallUnfolds(mem: seq<Byte>, control: int, script: seq<Transfer>, resetStatus: nat -> int)
    requires FIRST_LIMIT <= |mem| < UINT32_RANGE
    ensures var r := Call(mem, control, script, resetStatus);
            var first := |Answer(script, 0, FIRST_LIMIT).data|;
            var length := Announced(mem, script);
            var p := AfterHead(mem, script, resetStatus);
            && (HeadRead(mem, control, script, resetStatus) <==> control == SUCCESS && p.Good())
            && (!HeadRead(mem, control, script, resetStatus) ==> !r.Good() && r.outcome.Status?)
            && (HeadRead(mem, control, script, resetStatus) ==>
                  r == if first <= length <= |mem| then p.Rest(first, length - first, script, 1)
                       else p.(outcome := Overrun))
  {
    HeadReadIffGood(mem, control, script, resetStatus);
    var first := |Answer(script, 0, FIRST_LIMIT).data|;
    var length := Announced(mem, script);
    var missing := (length - first) % UINT32_RANGE;
    assert missing == if first <= length then length - first else length - first + UINT32_RANGE;
  }

  // A transfer is asked to write past the buffer exactly when the head announces fewer
  // bytes than the first transfer brought, or more than the buffer has.
  lemma OverrunsExactly(mem: seq<Byte>, control: int, script: seq<Transfer>, resetStatus: nat -> int)
    requires FIRST_LIMIT <= |mem| < UINT32_RANGE
    ensures Call(mem, control, script, resetStatus).outcome == Overrun <==>
            && HeadRead(mem, control, script, resetStatus)
            && (Announced(mem, script) < |Answer(script, 0, FIRST_LIMIT).data| || Announced(mem, script) > |mem|)
  {
    CallUnfolds(mem, control, script, resetStatus);
    if Fits(mem, control, script, resetStatus) {
      FittingCallStoresAll(mem, control, script, resetStatus);
    }
  }

  // A head of 24 bytes with the right magic that announces a message of four bytes.
  lemma ShortMessageOverruns(mem: seq<Byte>, rest: seq<Byte>, script: seq<Transfer>, resetStatus: nat -> int)
    requires FIRST_LIMIT <= |mem| < UINT32_RANGE && |rest| == 16
    ensures var head := [0x55, 0xAA, 0x55, 0xAA] + [4, 0, 0, 0] + rest;
            Call(mem, SUCCESS, [Bytes(head)] + script, resetStatus).outcome == Overrun
  {
    var magic, length: seq<Byte> := [0x55, 0xAA, 0x55, 0xAA], [4, 0, 0, 0];
    var head := magic + length + rest;
    var all := [Bytes(head)] + script;
    assert Answer(all, 0, FIRST_LIMIT) == Bytes(head);
    assert StoreAt(mem, 0, head)[0..4] == magic;
    assert StoreAt(mem, 0, head)[4..8] == length;
    assert DecodeUint32(magic) == PACK_MAGIC && DecodeUint32(length) == 4;
    OverrunsExactly(mem, SUCCESS, all, resetStatus);
  }

  // A message that fits.
  predicate Fits(mem: seq<Byte>, control: int, script: seq<Transfer>, resetStatus: nat -> int)
    requires FIRST_LIMIT <= |mem|
  {
    && HeadRead(mem, control, script, resetStatus)
    && |Answer(script, 0, FIRST_LIMIT).data| <= Announced(mem, script) <= |mem|
  }

  lemma HeadStores(mem: seq<Byte>, script: seq<Transfer>, resetStatus: nat -> int, length: nat)
    requires FIRST_LIMIT <= |mem| && |Answer(script, 0, FIRST_LIMIT).data| <= length <= |mem|
    ensures var p := AfterHead(mem, script, resetStatus);
            && Stored(p, mem, length, script) && |p.done| == 1
            && |AllData(p.done)| == |Answer(script, 0, FIRST_LIMIT).data|
            && (p.Good() ==> AllOk(p.done))
  {
    FirstTransferHolds(mem, script, resetStatus);
  }

  lemma FittingCallStoresAll(mem: seq<Byte>, control: int, script: seq<Transfer>, resetStatus: nat -> int)
    requires FIRST_LIMIT <= |mem| < UINT32_RANGE && Fits(mem, control, script, resetStatus)
    ensures EndsRight(AfterHead(mem, script, resetStatus), Call(mem, control, script, resetStatus),
                      mem, Announced(mem, script), script)
    ensures AfterHead(mem, script, resetStatus).done == [Answer(script, 0, FIRST_LIMIT)]
  {
    var first := |Answer(script, 0, FIRST_LIMIT).data|;
    CallUnfolds(mem, control, script, resetStatus);
    HeadStores(mem, script, resetStatus, Announced(mem, script));
    RestStoresAll(AfterHead(mem, script, resetStatus), mem, Announced(mem, script), script, first, 1);
  }

  // Success means that exactly as many bytes as the head announces have come, in
  // transfers that each asked for what was missing, and are in the buffer in order, with
  // the rest of the buffer as it was.
  lemma SuccessIsWholeMessage(mem: seq<Byte>, control: int, script: seq<Transfer>, resetStatus: nat -> int)
    requires FIRST_LIMIT <= |mem| < UINT32_RANGE && Call(mem, control, script, resetStatus).Good()
    ensures var r := Call(mem, control, script, resetStatus);
            var length := Announced(mem, script);
            && Fits(mem, control, script, resetStatus)
            && AllOk(r.done) && |AllData(r.done)| == length && r.mem == AllData(r.done) + mem[length..]
            && [Answer(script, 0, FIRST_LIMIT)] <= r.done && AnswersInTurn(script, r.done, length)
            && (|r.done[0].data| >= 8 ==> length == Field(r.mem, 4))
  {
    var r := Call(mem, control, script, resetStatus);
    CallUnfolds(mem, control, script, resetStatus);
    FittingCallStoresAll(mem, control, script, resetStatus);
    if |r.done[0].data| >= 8 {
      AnnouncedByDevice(mem, script);
      StartsWithFirst(r.done);
      assert r.mem[4..8] == r.done[0].data[4..8];
    }
  }

  // What the caller of a successful call finds in the buffer.
  predicate Filled(p: Progress, script: seq<Transfer>, length: nat) {
    AllOk(p.done) && AnswersInTurn(script, p.done, length)
    && |AllData(p.done)| == length <= |p.mem| && p.mem[..length] == AllData(p.done)
  }

  lemma SuccessFillsBuffer(mem: seq<Byte>, control: int, script: seq<Transfer>, resetStatus: nat -> int)
    requires FIRST_LIMIT <= |mem| < UINT32_RANGE
    ensures var r := Call(mem, control, script, resetStatus); r.Good() ==> Filled(r, script, Announced(mem, script))
  {
    if Call(mem, control, script, resetStatus).Good() {
      SuccessIsWholeMessage(mem, control, script, resetStatus);
    }
  }

  lemma {:induction false} StartsWithFirst(ts: seq<Transfer>)
    requires ts != []
    ensures ts[0].data <= AllData(ts)
  {
    if |ts| > 1 {
      StartsWithFirst(ts[..|ts| - 1]);
    } else {
      assert ts[..0] == [];
    }
  }

  // ----- When it succeeds -----

  // The bytes that entries k up to n of the script have to offer.
  function Supply(script: seq<Transfer>, k: nat, n: nat): nat
    requires k <= n <= |script|
    decreases n - k
  {
    if k == n then 0 else |script[k].data| + Supply(script, k + 1, n)
  }

  // The device goes on until it has offered `missing` bytes.
  predicate Supplies(script: seq<Transfer>, k: nat, missing: nat) {
    exists n :: k < n <= |script| && AllOk(script[k..n]) && Supply(script, k, n) >= missing
  }

  lemma SuppliesUnfolds(script: seq<Transfer>, k: nat, missing: nat)
    requires k < |script|
    ensures Supplies(script, k, missing) <==>
            script[k].Bytes? && (|script[k].data| >= missing || Supplies(script, k + 1, missing - |script[k].data|))
  {
    assert Supply(script, k + 1, k + 1) == 0;
    if Supplies(script, k, missing) {
      var n :| k < n <= |script| && AllOk(script[k..n]) && Supply(script, k, n) >= missing;
      assert script[k..n][0] == script[k];
      if |script[k].data| < missing {
        assert script[k + 1..n] == script[k..n][1..];
      }
    }
    if script[k].Bytes? {
      if |script[k].data| >= missing {
        assert script[k..k + 1] == [script[k]];
        assert Supply(script, k, k + 1) >= missing;
      } else if Supplies(script, k + 1, missing - |script[k].data|) {
        var n :| k + 1 < n <= |script| && AllOk(script[k + 1..n])
                 && Supply(script, k + 1, n) >= missing - |script[k].data|;
        assert script[k..n] == [script[k]] + script[k + 1..n];
        assert Supply(script, k, n) >= missing;
      }
    }
  }

  lemma {:induction false} RestSucceedsExactly(p: Progress, offset: nat, missing: nat, script: seq<Transfer>, k: nat)
    requires offset + missing <= |p.mem|
    ensures p.Rest(offset, missing, script, k).Good() <==> Supplies(script, k, missing)
    decreases if k < |script| then |script| - k else 0
  {
    var t := Answer(script, k, missing);
    if k < |script| {
      SuppliesUnfolds(script, k, missing);
      if t.Bytes? && |t.data| < missing {
        RestSucceedsExactly(p.Transferred(offset, t), offset + |t.data|, missing - |t.data|, script, k + 1);
      }
    }
  }

  // The call succeeds exactly when the head is read, its message fits, and the device
  // goes on sending until it has offered all that is missing.
  lemma SucceedsExactly(mem: seq<Byte>, control: int, script: seq<Transfer>, resetStatus: nat -> int)
    requires FIRST_LIMIT <= |mem| < UINT32_RANGE
    ensures Call(mem, control, script, resetStatus).Good() <==>
            && Fits(mem, control, script, resetStatus)
            && Supplies(script, 1, Announced(mem, script) - |Answer(script, 0, FIRST_LIMIT).data|)
  {
    CallUnfolds(mem, control, script, resetStatus);
    if Fits(mem, control, script, resetStatus) {
      var first := |Answer(script, 0, FIRST_LIMIT).data|;
      RestSucceedsExactly(AfterHead(mem, script, resetStatus), first, Announced(mem, script) - first, script, 1);
    }
  }

  // ----- How it fails -----

  // The status is that of the last transfer.
  predicate EndsWithLast(p: Progress) {
    p.done != []
    && var last := p.done[|p.done| - 1];
       p.outcome == Status(if last.Failed? then last.status else SUCCESS)
  }

  lemma {:induction false} RestEndsWithLast(p: Progress, offset: nat, missing: nat, script: seq<Transfer>, k: nat)
    requires offset + missing <= |p.mem|
    ensures var r := p.Rest(offset, missing, script, k);
            |r.done| > |p.done| && EndsWithLast(r)
    decreases if k < |script| then |script| - k else 0
  {
    RestUnfolds(p, offset, missing, script, k);
    var t := Answer(script, k, missing);
    if t.Bytes? && |t.data| < missing {
      RestEndsWithLast(p.Transferred(offset, t), offset + |t.data|, missing - |t.data|, script, k + 1);
    }
  }

  // What the resets make of the call when the first transfer works.
  lemma HeadFailsWithReset(mem: seq<Byte>, script: seq<Transfer>, resetStatus: nat -> int)
    requires FIRST_LIMIT <= |mem| && Answer(script, 0, FIRST_LIMIT).Bytes?
    ensures var t := Answer(script, 0, FIRST_LIMIT);
            var p := AfterHead(mem, script, resetStatus);
            var short := |t.data| < HEAD_AND_TIMESTAMP;
            var misdirected := Field(StoreAt(mem, 0, t.data), 0) != PACK_MAGIC;
            var n := if short then 1 else 0;
            if short && resetStatus(0) != SUCCESS then p.outcome == Status(resetStatus(0)) && p.resets == 1
            else if misdirected && resetStatus(n) != SUCCESS then
              p.outcome == Status(resetStatus(n)) && p.resets == n + 1
            else p.Good() && p.resets == n + if misdirected then 1 else 0
  {
    var t := Answer(script, 0, FIRST_LIMIT);
    var p := Progress(Status(SUCCESS), mem, [], 0).Transferred(0, t);
    var p1 := p.Reset(|t.data| < HEAD_AND_TIMESTAMP, resetStatus);
    assert p1.mem == StoreAt(mem, 0, t.data);
  }

  // The status of a call that does not succeed is that of the step that failed: the
  // request, which leaves the buffer alone and asks for no transfer; the first transfer,
  // which asks for no reset; the first reset that fails; or the last transfer made.
  lemma FailsWithStepThatFailed(mem: seq<Byte>, control: int, script: seq<Transfer>, resetStatus: nat -> int)
    requires FIRST_LIMIT <= |mem| < UINT32_RANGE
    ensures var r := Call(mem, control, script, resetStatus);
            var t := Answer(script, 0, FIRST_LIMIT);
            var p := AfterHead(mem, script, resetStatus);
            if control != SUCCESS then r == Progress(Status(control), mem, [], 0)
            else if t.Failed? then r == Progress(Status(t.status), StoreAt(mem, 0, t.data), [t], 0)
            else if !p.Good() then r == p
            else r.resets == p.resets && (Fits(mem, control, script, resetStatus) ==> EndsWithLast(r))
  {
    CallUnfolds(mem, control, script, resetStatus);
    if Fits(mem, control, script, resetStatus) {
      FittingCallStoresAll(mem, control, script, resetStatus);
      var first := |Answer(script, 0, FIRST_LIMIT).data|;
      RestEndsWithLast(AfterHead(mem, script, resetStatus), first, Announced(mem, script) - first, script, 1);
    } else if control == SUCCESS && Answer(script, 0, FIRST_LIMIT).Failed? {
      FailedTransferEnds(mem, script, resetStatus);
    }
  }

  lemma FailedTransferEnds(mem: seq<Byte>, script: seq<Transfer>, resetStatus: nat -> int)
    requires FIRST_LIMIT <= |mem| && Answer(script, 0, FIRST_LIMIT).Failed?
    ensures var t := Answer(script, 0, FIRST_LIMIT);
            AfterHead(mem, script, resetStatus) == Progress(Status(t.status), StoreAt(mem, 0, t.data), [t], 0)
  {
  }

  predicate NeverEmpty(script: seq<Transfer>) {
    forall i :: 0 <= i < |script| ==> script[i].Bytes? && script[i].data != []
  }

  lemma {:induction false} SupplyAtLeast(script: seq<Transfer>, k: nat, n: nat)
    requires NeverEmpty(script) && k <= n <= |script|
    ensures Supply(script, k, n) >= n - k
    decreases n - k
  {
    if k < n { SupplyAtLeast(script, k + 1, n); }
  }

  // A device that always has something to send makes the call succeed within as many
  // transfers as the message has bytes, or two when the first one brings it all.
  lemma SteadyDeviceSucceeds(mem: seq<Byte>, control: int, script: seq<Transfer>, resetStatus: nat -> int)
    requires FIRST_LIMIT <= |mem| < UINT32_RANGE && Fits(mem, control, script, resetStatus)
    requires NeverEmpty(script) && |script| >= 2 && |script| >= Announced(mem, script)
    ensures var r := Call(mem, control, script, resetStatus);
            r.Good() && (|r.done| <= Announced(mem, script) || |r.done| == 2)
  {
    var length := Announced(mem, script);
    SupplyAtLeast(script, 1, |script|);
    assert AllOk(script[1..|script|]);
    SucceedsExactly(mem, control, script, resetStatus);
    SuccessIsWholeMessage(mem, control, script, resetStatus);
    FewTransfers(script, Call(mem, control, script, resetStatus).done, length);
  }

  lemma FewTransfers(script: seq<Transfer>, done: seq<Transfer>, length: nat)
    requires NeverEmpty(script) && AnswersInTurn(script, done, length) && AllOk(done)
    requires [Answer(script, 0, FIRST_LIMIT)] <= done && |AllData(done)| == length
    ensures |done| <= length || |done| == 2
  {
    assert done[..|done|] == done;
    if |done| == 1 {
      AllDataAppend([], done[0]);
      assert done == [] + [done[0]];
    } else if |AllData(done[..1])| == length {
      SecondIsLast(script, done, length);
    } else {
      assert InTurn(script, done, length, 1);
      TransfersAddUp(script, done, length, |done|);
    }
  }

  lemma SecondIsLast(script: seq<Transfer>, done: seq<Transfer>, length: nat)
    requires AnswersInTurn(script, done, length) && |done| > 1 && |AllData(done[..1])| == length
    ensures |done| == 2
  {
    if |done| > 2 {
      assert InTurn(script, done, length, 2);
      assert done[..2] == done[..1] + [done[1]];
      AllDataAppend(done[..1], done[1]);
    }
  }

  // While something is missing each transfer brings at least a byte.
  lemma {:induction false} TransfersAddUp(script: seq<Transfer>, done: seq<Transfer>, length: nat, k: nat)
    requires NeverEmpty(script) && AnswersInTurn(script, done, length) && AllOk(done)
    requires |done| > 1 && done[0] == Answer(script, 0, FIRST_LIMIT) && k <= |done|
    requires |AllData(done[..1])| < length
    ensures |AllData(done[..k])| >= k
  {
    if k > 0 {
      var j := k - 1;
      TransfersAddUp(script, done, length, j);
      TransferNotEmpty(script, done, length, j);
      assert done[..k] == done[..j] + [done[j]];
      AllDataAppend(done[..j], done[j]);
    }
  }

  lemma TransferNotEmpty(script: seq<Transfer>, done: seq<Transfer>, length: nat, j: nat)
    requires NeverEmpty(script) && AnswersInTurn(script, done, length) && AllOk(done)
    requires |done| > 1 && done[0] == Answer(script, 0, FIRST_LIMIT) && j < |done|
    requires |AllData(done[..1])| < length
    ensures |done[j].data| >= 1
  {
    assert done[j].Bytes?;
    if j > 0 {
      assert InTurn(script, done, length, j);
    }
    assert j < |script| && script[j].data != [];
  }

  // ----- The call as it runs -----

  class Reader {
    // The message buffer, which starts with the head, and the device behind the messenger.
    const buffer: array<Byte>
    var resets: nat               // endpoint resets so far
    var done: seq<Transfer>       // the transfers of the call so far

    constructor (buffer: array<Byte>)
      ensures this.buffer == buffer && resets == 0 && done == []
    {
      this.buffer := buffer;
      resets, done := 0, [];
    }

    ghost function View(status: int): Progress
      reads this, buffer
    {
      Progress(Status(status), buffer[..], done, resets)
    }

    method WriteAt(offset: nat, data: seq<Byte>)
      requires offset + |data| <= buffer.Length
      modifies buffer
      ensures buffer[..] == StoreAt(old(buffer[..]), offset, data)
    {
      var i := 0;
      while i < |data|
        invariant 0 <= i <= |data|
        invariant buffer[..] == StoreAt(old(buffer[..]), offset, data[..i])
      {
        buffer[offset + i] := data[i];
        i := i + 1;
      }
      assert data[..i] == data;
    }

    // bulk_transfer into the buffer at `offset`: `t` is what the device does. The count
    // is only written when the transfer works.
    method BulkTransfer(offset: nat, before: nat, t: Transfer) returns (status: int, transferred: nat)
      requires offset + |t.data| <= buffer.Length
      requires t.Failed? ==> t.status < 0
      modifies this`done, buffer
      ensures View(status) == old(View(SUCCESS)).Transferred(offset, t)
      ensures transferred == if t.Bytes? then |t.data| else before
    {
      done := done + [t];
      WriteAt(offset, t.data);
      match t
      case Failed(_, s) => status, transferred := s, before;
      case Bytes(_) => status, transferred := SUCCESS, |t.data|;
    }

    // One request for what is missing: either the rest is done, or it goes on behind.
    method Request(offset: nat, before: nat, missing: nat, script: seq<Transfer>, k: nat, ghost end: Progress)
      returns (status: int, transferred: nat)
      requires offset + missing <= buffer.Length
      requires end == View(SUCCESS).Rest(offset, missing, script, k)
      modifies this`done, buffer
      ensures status <= SUCCESS && (status == SUCCESS ==> transferred <= missing && k < |script|)
      ensures if status == SUCCESS && transferred < missing
              then end == View(SUCCESS).Rest(offset + transferred, missing - transferred, script, k + 1)
              else end == View(status)
    {
      RestUnfolds(View(SUCCESS), offset, missing, script, k);
      status, transferred := BulkTransfer(offset, before, Answer(script, k, missing));
    }

    // The transfers that complete a message of which `first` bytes are stored.
    method ReadRest(first: nat, size: nat, script: seq<Transfer>) returns (status: int)
      requires first + size <= buffer.Length
      modifies this`done, buffer
      ensures View(status) == old(View(SUCCESS)).Rest(first, size, script, 1)
    {
      ghost var end := View(SUCCESS).Rest(first, size, script, 1);
      var offset, readSize, k := first, size, 1;
      var transferred;
      status, transferred := Request(offset, first, readSize, script, k, end);
      if status != SUCCESS { return; }
      while transferred < readSize
        invariant 0 <= transferred <= readSize && offset + readSize == first + size
        invariant status == SUCCESS && 0 < k <= |script|
        invariant if transferred < readSize
                  then end == View(SUCCESS).Rest(offset + transferred, readSize - transferred, script, k + 1)
                  else end == View(SUCCESS)
        decreases |script| - k
      {
        readSize := readSize - transferred;
        offset := offset + transferred;
        k := k + 1;
        status, transferred := Request(offset, transferred, readSize, script, k, end);
        if status < 0 { return; }
      }
    }

    method ResetEndpoint(resetStatus: nat -> int) returns (status: int)
      modifies this`resets
      ensures View(status) == old(View(SUCCESS)).Reset(true, resetStatus)
    {
      status := resetStatus(resets);
      resets := resets + 1;
    }

    // The first transfer and the resets it may call for. The call goes on when the
    // status is SUCCESS.
    method ReadHead(script: seq<Transfer>, resetStatus: nat -> int) returns (status: int, first: nat)
      requires done == [] && resets == 0 && FIRST_LIMIT <= buffer.Length
      modifies this`done, this`resets, buffer
      ensures View(status) == AfterHead(old(buffer[..]), script, resetStatus)
      ensures status == SUCCESS ==> first == |Answer(script, 0, FIRST_LIMIT).data|
    {
      status, first := BulkTransfer(0, 0, Answer(script, 0, FIRST_LIMIT));
      if status != SUCCESS { return; }
      if first < HEAD_AND_TIMESTAMP {
        status := ResetEndpoint(resetStatus);
        if status != SUCCESS { return; }
      }
      if DecodeUint32(buffer[0..4]) != PACK_MAGIC {
        status := ResetEndpoint(resetStatus);
      }
    }

    // stream_read
    method StreamRead(control: int, script: seq<Transfer>, resetStatus: nat -> int) returns (outcome: Outcome)
      requires done == [] && resets == 0 && FIRST_LIMIT <= buffer.Length < UINT32_RANGE
      modifies this`done, this`resets, buffer
      ensures Progress(outcome, buffer[..], done, resets) == Call(old(buffer[..]), control, script, resetStatus)
      ensures outcome == Status(SUCCESS) ==> Filled(View(SUCCESS), script, Announced(old(buffer[..]), script))
    {
      if control != SUCCESS { return Status(control); }
      ghost var mem := buffer[..];
      CallUnfolds(mem, control, script, resetStatus);
      var status, first := ReadHead(script, resetStatus);
      if status != SUCCESS { return Status(status); }
      var readSize := (DecodeUint32(buffer[4..8]) - first) % UINT32_RANGE;
      if first + readSize > buffer.Length { return Overrun; }
      status := ReadRest(first, readSize, script);
      SuccessFillsBuffer(mem, control, script, resetStatus);
      outcome := Status(status);
    }
  }
}
