/**
  The request correlation of mpv_ipc.go.

  A `Connection` numbers its requests with a counter (`lastRequest`) and keeps
  a table from request id to the pending slot of the `Call` that issued it
  (`waitingRequests`). `Call` is split into the atomic steps that the mutex
  and the channels separate in the source: `BeginCall` (allocate the id and
  insert the slot), `SendCommand` (write the frame), `Receive` (take the
  result the reader handed over) and `EndCall` (the deferred cleanup). The
  reader's loop `listen` routes each decoded line with `Deliver`.

  The socket is a record of the bytes written to it; dialling, closing and
  each write are given as success flags, `encoding/json` encoding as a
  function parameter and decoding as its outcome (`Decoded`).
*/
module MpvIpc {
  import opened Wrappers

  /** Go's `uint` on a 64-bit platform. */
  const UINT_MAX: int := 0xFFFF_FFFF_FFFF_FFFF
  type Uint = x: int | 0 <= x <= UINT_MAX

  type byte = x: int | 0 <= x < 256
  const NEWLINE: byte := 10
  const CARRIAGE_RETURN: byte := 13

  /** A decoded JSON value, as `interface{}` holds it after `encoding/json`. */
  datatype Value =
    | Null
    | Bool(b: bool)
    | Number(literal: string)
    | Text(s: string)
    | List(items: seq<Value>)
    | Object(fields: map<string, Value>)

  /** `commandRequest`: the frame `{"command": arguments, "request_id": id}`. */
  datatype CommandRequest = CommandRequest(arguments: seq<Value>, id: Uint)

  /** `commandResult`: `{"error": status, "data": data, "request_id": id}`; absent fields decode to "", null and 0. */
  datatype CommandResult = CommandResult(status: string, data: Value, id: Uint)

  /**
    What `json.Unmarshal(data, &result)` makes of one line: an error, the
    document `null` (which sets `result` to nil), or a `commandResult`.
  */
  datatype Decoded = Malformed | NullDocument | Decoded(result: CommandResult)

  /** The errors the connection returns; the comments give the source's messages. */
  datatype Error =
    | ConnectFailed            // "can't connect to mpv's socket: ..."
    | EncodeFailed             // "can't encode command: ..."
    | WriteFailed              // "can't write command: ..."
    | TerminateFailed          // "can't terminate command: ..."
    | RemoteError(status: string)  // "mpv error: <status>"
    | CloseFailed              // the error of the socket's Close

  /** A pending slot: the `Call` is still waiting, or the reader has handed it a result. */
  datatype Slot = Awaiting | Received(result: CommandResult)

  /** An open socket, as the sequence of bytes written to it. */
  datatype Socket = Socket(written: seq<byte>)

  /** `lastRequest++` on a Go `uint`: wraps to 0 after the largest value. */
  function NextId(n: Uint): (r: Uint)
    ensures r == (n + 1) % (UINT_MAX + 1)
    ensures n < UINT_MAX ==> n < r && r >= 1
  {
    if n == UINT_MAX then 0 else n + 1
  }

  /**
    The end of `Call`: a result with status "success" yields its data and no
    error; any other status, empty included, yields an error carrying that
    status and no data.
  */
  function Interpret(result: CommandResult): (r: Result<Value, Error>)
    ensures r.Success? <==> result.status == "success"
    ensures r.Success? ==> r.value == result.data
    ensures r.Failure? ==> r.error == RemoteError(result.status)
  {
    if result.status == "success" then Success(result.data) else Failure(RemoteError(result.status))
  }

  /** The frame `sendCommand` puts on the wire: the encoded message followed by one newline. */
  function Frame(payload: seq<byte>): (f: seq<byte>)
    ensures |f| == |payload| + 1 && f[..|payload|] == payload && f[|payload|] == NEWLINE
  {
    payload + [NEWLINE]
  }

  /** The bytes one `sendCommand` adds to the socket and the error it returns. */
  datatype Transmission = Transmission(bytes: seq<byte>, err: Option<Error>)

  /**
    `sendCommand`, given the encoder's output and whether each of its two
    writes succeeds. It succeeds exactly when all three do, and then the whole
    frame was written; a failed encoding or first write adds nothing, and a
    failed terminator leaves the payload on the wire without its newline.
  */
  function Transmit(encoded: Option<seq<byte>>, payloadWritten: bool, terminatorWritten: bool): (t: Transmission)
    ensures t.err.None? <==> encoded.Some? && payloadWritten && terminatorWritten
    ensures t.err.None? ==> t.bytes == Frame(encoded.value)
    ensures encoded.None? ==> t == Transmission([], Some(EncodeFailed))
    ensures encoded.Some? && !payloadWritten ==> t == Transmission([], Some(WriteFailed))
    ensures encoded.Some? && payloadWritten && !terminatorWritten ==> t == Transmission(encoded.value, Some(TerminateFailed))
  {
    match encoded
    case None => Transmission([], Some(EncodeFailed))
    case Some(data) =>
      if !payloadWritten then Transmission([], Some(WriteFailed))
      else if !terminatorWritten then Transmission(data, Some(TerminateFailed))
      else Transmission(data + [NEWLINE], None)
  }

  // ---------------------------------------------------------------------
  // Routing of decoded lines to pending slots
  // ---------------------------------------------------------------------

  /**
    One iteration of `listen`, with the reader's crash on a `null` line
    corrected: a decoded result is handed to the slot whose id equals its
    `Id` and to no other; a result with an unknown id, and a line that does
    not decode, change nothing.
  */
  function Route(table: map<Uint, Slot>, d: Decoded): (t: map<Uint, Slot>)
    ensures t.Keys == table.Keys
    ensures d.Decoded? && d.result.id in table ==> t[d.result.id] == Received(d.result)
    ensures forall k :: k in table && !(d.Decoded? && d.result.id == k) ==> t[k] == table[k]
    ensures !d.Decoded? || d.result.id !in table ==> t == table
  {
    match d
    case Decoded(r) => if r.id in table then table[r.id := Received(r)] else table
    case _ => table
  }

  /** The outcome of one iteration of the source's `listen`: the reader crashes, or the table it leaves. */
  datatype ListenStep = Crashed | Routed(table: map<Uint, Slot>)

  /**
    One iteration of `listen` as written. `json.Unmarshal` of the line `null`
    sets `result` to nil without an error, and `result.Id` then
    dereferences nil: the reader goroutine panics.
  */
  function ListenStepAsWritten(table: map<Uint, Slot>, d: Decoded): (o: ListenStep)
    ensures o.Crashed? <==> d.NullDocument?
  {
    match d
    case Malformed => Routed(table)
    case NullDocument => Crashed
    case Decoded(r) => if r.id in table then Routed(table[r.id := Received(r)]) else Routed(table)
  }

  /** The line `null` crashes the reader as written, whatever the table. */
  lemma NullLineCrashesReader(table: map<Uint, Slot>)
    ensures ListenStepAsWritten(table, NullDocument) == Crashed
  {
  }

  /** Apart from the line `null`, the corrected step does what the source does. */
  lemma RouteAgreesWithSource(table: map<Uint, Slot>, d: Decoded)
    requires !d.NullDocument?
    ensures ListenStepAsWritten(table, d) == Routed(Route(table, d))
  {
  }

  /** Routing a sequence of decoded lines in order, as the reader's loop does. */
  function RouteAll(table: map<Uint, Slot>, ds: seq<Decoded>): (t: map<Uint, Slot>)
    ensures t.Keys == table.Keys
    decreases |ds|
  {
    if ds == [] then table else Route(RouteAll(table, ds[..|ds| - 1]), ds[|ds| - 1])
  }

  /** Some line in `ds` is a result for request `k`. */
  ghost predicate Answers(ds: seq<Decoded>, k: Uint)
  {
    exists i :: 0 <= i < |ds| && ds[i].Decoded? && ds[i].result.id == k
  }

  /**
    The peer answers each pending request at most once, and only requests
    whose slot is still waiting. Otherwise the source's reader blocks on the
    send to the slot until the call's deferred cleanup closes it, and then
    panics sending on a closed channel (or drops the line, if the delete ran
    first).
  */
  ghost predicate AnswersOnce(table: map<Uint, Slot>, ds: seq<Decoded>)
  {
    && (forall i :: 0 <= i < |ds| && ds[i].Decoded? && ds[i].result.id in table ==>
          table[ds[i].result.id].Awaiting?)
    && (forall i, j :: 0 <= i < j < |ds| && ds[i].Decoded? && ds[j].Decoded? && ds[i].result.id in table ==>
          ds[i].result.id != ds[j].result.id)
  }

  /** Routing never adds or removes a pending request, and leaves unanswered ones alone. */
  lemma {:induction false} RouteAllUntouched(table: map<Uint, Slot>, ds: seq<Decoded>, k: Uint)
    ensures RouteAll(table, ds).Keys == table.Keys
    ensures k in table && !Answers(ds, k) ==> RouteAll(table, ds)[k] == table[k]
    decreases |ds|
  {
    if ds != [] {
      var front := ds[..|ds| - 1];
      RouteAllUntouched(table, front, k);
    }
  }

  /**
    Whatever order the answers arrive in, every pending request that the peer
    answers holds exactly its own answer afterwards, and every other pending
    request is unchanged ("replies to ids 6 then 5 still reach their callers").
  */
  lemma {:induction false} RouteAllDeliversToOwner(table: map<Uint, Slot>, ds: seq<Decoded>)
    requires AnswersOnce(table, ds)
    ensures RouteAll(table, ds).Keys == table.Keys
    ensures forall i :: 0 <= i < |ds| && ds[i].Decoded? && ds[i].result.id in table ==>
              RouteAll(table, ds)[ds[i].result.id] == Received(ds[i].result)
    ensures forall k :: k in table && !Answers(ds, k) ==> RouteAll(table, ds)[k] == table[k]
    decreases |ds|
  {
    forall k | k in table
      ensures RouteAll(table, ds).Keys == table.Keys
      ensures !Answers(ds, k) ==> RouteAll(table, ds)[k] == table[k]
    {
      RouteAllUntouched(table, ds, k);
    }
    RouteAllUntouched(table, ds, 0);
    if ds != [] {
      var n := |ds| - 1;
      var front := ds[..n];
      assert AnswersOnce(table, front) by {
        forall i, j | 0 <= i < j < |front|
          ensures front[i] == ds[i] && front[j] == ds[j]
        {
        }
      }
      RouteAllDeliversToOwner(table, front);
      forall i | 0 <= i < |ds| && ds[i].Decoded? && ds[i].result.id in table
        ensures RouteAll(table, ds)[ds[i].result.id] == Received(ds[i].result)
      {
        if i < n {
          assert ds[i] == front[i];
          assert !(ds[n].Decoded? && ds[n].result.id == ds[i].result.id);
        }
      }
    }
  }

  /** Routing one more line after `ds` is one more step of `Route`. */
  lemma RouteAllAfterOne(table: map<Uint, Slot>, ds: seq<Decoded>, d: Decoded)
    ensures RouteAll(table, ds + [d]) == Route(RouteAll(table, ds), d)
  {
  }

  // ---------------------------------------------------------------------
  // Line framing of the byte stream
  // ---------------------------------------------------------------------

  /** The position of the first newline in `s`. */
  function FirstNewline(s: seq<byte>): (i: nat)
    requires NEWLINE in s
    ensures i < |s| && s[i] == NEWLINE && NEWLINE !in s[..i]
  {
    if s[0] == NEWLINE then 0
    else
      var i := 1 + FirstNewline(s[1..]);
      assert s[..i] == [s[0]] + s[1..][..i - 1];
      i
  }

  /** A line without its optional trailing carriage return. */
  function DropCarriageReturn(s: seq<byte>): (r: seq<byte>)
    ensures r <= s
    ensures |r| == |s| - 1 <==> |s| > 0 && s[|s| - 1] == CARRIAGE_RETURN
    ensures |r| != |s| - 1 ==> r == s
  {
    if |s| > 0 && s[|s| - 1] == CARRIAGE_RETURN then s[..|s| - 1] else s
  }

  /**
    The lines a reader sees in a byte stream, with the end-of-line convention
    of Go's `bufio.ScanLines`: lines end at a newline with an optional
    carriage return before it, and a final unterminated line still counts.
  */
  function Lines(s: seq<byte>): (ls: seq<seq<byte>>)
    ensures ls == [] <==> s == []
    ensures forall i :: 0 <= i < |ls| ==> NEWLINE !in ls[i]
    decreases |s|
  {
    if s == [] then []
    else if NEWLINE in s then
      var i := FirstNewline(s);
      [DropCarriageReturn(s[..i])] + Lines(s[i + 1..])
    else [DropCarriageReturn(s)]
  }

  /** A payload that survives line framing: no newline inside, no carriage return at its end. */
  predicate WellFramed(p: seq<byte>)
  {
    NEWLINE !in p && (|p| == 0 || p[|p| - 1] != CARRIAGE_RETURN)
  }

  /** The bytes of several frames written one after another. */
  function Stream(payloads: seq<seq<byte>>): (s: seq<byte>)
    decreases |payloads|
  {
    if payloads == [] then [] else Frame(payloads[0]) + Stream(payloads[1..])
  }

  /** A newline with none before it is the first newline. */
  lemma FirstNewlineAt(s: seq<byte>, k: nat)
    requires k < |s| && s[k] == NEWLINE
    requires forall j :: 0 <= j < k ==> s[j] != NEWLINE
    ensures NEWLINE in s && FirstNewline(s) == k
  {
  }

  /** A reader of `Frame(p) + rest` sees `p` as one line, then the lines of `rest`. */
  lemma LinesAfterFrame(p: seq<byte>, rest: seq<byte>)
    requires WellFramed(p)
    ensures Lines(Frame(p) + rest) == [p] + Lines(rest)
  {
    var s := Frame(p) + rest;
    forall j | 0 <= j < |p|
      ensures s[j] != NEWLINE
    {
      assert s[j] == p[j];
    }
    FirstNewlineAt(s, |p|);
    assert s[..|p|] == p;
    assert s[|p| + 1..] == rest;
  }

  /** Framing round trip: the lines of a stream of frames are exactly their payloads, in order. */
  lemma {:induction false} LinesOfStream(payloads: seq<seq<byte>>)
    requires forall i :: 0 <= i < |payloads| ==> WellFramed(payloads[i])
    ensures Lines(Stream(payloads)) == payloads
    decreases |payloads|
  {
    if payloads != [] {
      LinesAfterFrame(payloads[0], Stream(payloads[1..]));
      LinesOfStream(payloads[1..]);
    }
  }

  // ---------------------------------------------------------------------
  // The connection
  // ---------------------------------------------------------------------

  /** Every line the reader accepts is answered in time: a result for a pending request finds its slot waiting. */
  predicate ExpectedAnswer(table: map<Uint, Slot>, d: Decoded)
  {
    d.Decoded? && d.result.id in table ==> table[d.result.id].Awaiting?
  }

  class Connection {
    /** The socket; None before `Open` and after a successful `Close`. */
    var client: Option<Socket>
    var socketName: string
    /** The id of the latest request. */
    var lastRequest: Uint
    /** The pending slot of every `Call` in progress, by request id. */
    var waitingRequests: map<Uint, Slot>

    /** Every pending id was allocated by a call: it lies in 1..lastRequest. */
    ghost predicate Valid()
      reads this
    {
      forall id :: id in waitingRequests ==> 1 <= id <= lastRequest
    }

    /** `NewConnection`: no socket, no request issued yet, nothing pending. */
    constructor (socketName: string)
      ensures Valid()
      ensures this.socketName == socketName
      ensures client == None && lastRequest == 0 && waitingRequests == map[]
    {
      this.socketName := socketName;
      client := None;
      lastRequest := 0;
      waitingRequests := map[];
    }

    /**
      `Open`, given whether dialling the socket succeeded. There is no check
      for a socket already open: a second open replaces it.
    */
    method Open(dialled: bool) returns (err: Option<Error>)
      modifies this
      ensures dialled ==> err == None && client == Some(Socket([]))
      ensures !dialled ==> err == Some(ConnectFailed) && client == old(client)
      ensures socketName == old(socketName) && lastRequest == old(lastRequest)
      ensures waitingRequests == old(waitingRequests)
    {
      if !dialled {
        return Some(ConnectFailed);
      }
      client := Some(Socket([]));
      err := None;
    }

    /**
      The first critical section of `Call`: increment the counter, take the
      new value as the id and insert a waiting slot for it, before anything
      is sent. Until the counter wraps, ids strictly increase and are never 0.
    */
    method BeginCall() returns (id: Uint)
      requires Valid()
      modifies this
      ensures id == NextId(old(lastRequest)) && lastRequest == id
      ensures id !in old(waitingRequests)
      ensures waitingRequests == old(waitingRequests)[id := Awaiting]
      ensures client == old(client) && socketName == old(socketName)
      ensures old(lastRequest) < UINT_MAX ==> Valid() && old(lastRequest) < id && id >= 1
    {
      lastRequest := NextId(lastRequest);
      id := lastRequest;
      waitingRequests := waitingRequests[id := Awaiting];
    }

    /**
      `sendCommand`: encode `{"command": arguments, "request_id": id}` with
      `marshal`, write it and then one newline. It is only called once the
      slot for `id` is in the table and waiting, so the reader can always
      deliver the answer. An encoding failure returns before the socket is
      used; writing to a nil socket panics in the source, hence the requires.
    */
    method SendCommand(id: Uint, arguments: seq<Value>, marshal: CommandRequest -> Option<seq<byte>>,
                       payloadWritten: bool, terminatorWritten: bool) returns (err: Option<Error>)
      requires id in waitingRequests && waitingRequests[id].Awaiting?
      requires client.Some? || marshal(CommandRequest(arguments, id)).None?
      modifies this
      ensures var t := Transmit(marshal(CommandRequest(arguments, id)), payloadWritten, terminatorWritten);
        && err == t.err
        && (old(client).Some? ==> client == Some(Socket(old(client.value.written) + t.bytes)))
      ensures old(client).None? ==> client == None && err == Some(EncodeFailed)
      ensures lastRequest == old(lastRequest) && waitingRequests == old(waitingRequests)
      ensures socketName == old(socketName)
    {
      var data := marshal(CommandRequest(arguments, id));
      if data.None? {
        assert client.Some? ==> client.value.written + [] == client.value.written;
        return Some(EncodeFailed);
      }
      assert client.value.written + [] == client.value.written;
      if !payloadWritten {
        return Some(WriteFailed);
      }
      client := Some(Socket(client.value.written + data.value));
      if !terminatorWritten {
        return Some(TerminateFailed);
      }
      assert old(client.value.written) + data.value + [NEWLINE] == old(client.value.written) + (data.value + [NEWLINE]);
      client := Some(Socket(client.value.written + [NEWLINE]));
      err := None;
    }

    /**
      One iteration of the reader's loop on a decoded line, with the corrected
      step `Route`: the result goes to the slot keyed by its id and nowhere
      else, and lines with an unknown id (an event line decodes to id 0,
      which no call ever gets) or that do not decode change nothing. The line
      `null` is dropped here, where the source's reader panics on it
      (`ListenStepAsWritten`).
    */
    method Deliver(d: Decoded)
      requires Valid()
      requires ExpectedAnswer(waitingRequests, d)
      modifies this
      ensures Valid()
      ensures waitingRequests == Route(old(waitingRequests), d)
      ensures d.Decoded? && d.result.id == 0 ==> waitingRequests == old(waitingRequests)
      ensures client == old(client) && lastRequest == old(lastRequest) && socketName == old(socketName)
    {
      match d
      case Decoded(r) =>
        if r.id in waitingRequests {
          waitingRequests := waitingRequests[r.id := Received(r)];
        }
      case _ =>
    }

    /**
      The reader's loop `listen` over the lines of a session, each decoded,
      with no call starting or ending meanwhile. Each line is routed with the
      corrected step `Route`, so a `null` line is dropped rather than
      crashing the reader as in the source.
    */
    method Listen(lines: seq<Decoded>)
      requires Valid()
      requires AnswersOnce(waitingRequests, lines)
      modifies this
      ensures Valid()
      ensures waitingRequests == RouteAll(old(waitingRequests), lines)
      ensures client == old(client) && lastRequest == old(lastRequest) && socketName == old(socketName)
    {
      var i := 0;
      while i < |lines|
        invariant 0 <= i <= |lines|
        invariant Valid()
        invariant waitingRequests == RouteAll(old(waitingRequests), lines[..i])
        invariant client == old(client) && lastRequest == old(lastRequest) && socketName == old(socketName)
      {
        ghost var start := old(waitingRequests);
        if lines[i].Decoded? && lines[i].result.id in waitingRequests {
          RouteAllUntouched(start, lines[..i], lines[i].result.id);
        }
        Deliver(lines[i]);
        RouteAllAfterOne(start, lines[..i], lines[i]);
        assert lines[..i + 1] == lines[..i] + [lines[i]];
        i := i + 1;
      }
      assert lines[..i] == lines;
    }

    /**
      The receive `<-resultChannel` and its interpretation, once the reader has
      handed over the result: the call succeeds exactly when mpv answered
      "success", and then returns the answer's data; otherwise it fails with
      mpv's status.
    */
    method Receive(id: Uint) returns (r: Result<Value, Error>)
      requires id in waitingRequests && waitingRequests[id].Received?
      ensures r.Success? <==> waitingRequests[id].result.status == "success"
      ensures r.Success? ==> r.value == waitingRequests[id].result.data
      ensures r.Failure? ==> r.error == RemoteError(waitingRequests[id].result.status)
    {
      r := Interpret(waitingRequests[id].result);
    }

    /**
      The deferred cleanup of `Call`: close the slot and delete it; no other
      entry is touched. The id is always present, as only its own call
      deletes it.
    */
    method EndCall(id: Uint)
      requires Valid()
      requires id in waitingRequests
      modifies this
      ensures Valid()
      ensures waitingRequests == old(waitingRequests) - {id}
      ensures id !in waitingRequests
      ensures client == old(client) && lastRequest == old(lastRequest) && socketName == old(socketName)
    {
      waitingRequests := waitingRequests - {id};
    }

    /**
      One run of `Call` in which the reader hands over `reply` while the call
      waits. On every exit path the slot is gone again and the table is as it
      was; the id is the counter's next value; a failed send returns its
      error, otherwise the reply is interpreted. On a connection that never
      opened, only a command that fails to encode returns (with that error);
      any other panics on the nil socket in the source, hence the requires.
    */
    method Call(arguments: seq<Value>, marshal: CommandRequest -> Option<seq<byte>>,
                payloadWritten: bool, terminatorWritten: bool, reply: CommandResult)
      returns (id: Uint, r: Result<Value, Error>)
      requires Valid() && lastRequest < UINT_MAX
      requires client.Some? || marshal(CommandRequest(arguments, lastRequest + 1)).None?
      requires reply.id == lastRequest + 1
      modifies this
      ensures Valid()
      ensures id == old(lastRequest) + 1 && lastRequest == id
      ensures waitingRequests == old(waitingRequests)
      ensures var t := Transmit(marshal(CommandRequest(arguments, id)), payloadWritten, terminatorWritten);
        && (old(client).Some? ==> client == Some(Socket(old(client.value.written) + t.bytes)))
        && r == (if t.err.Some? then Failure(t.err.value) else Interpret(reply))
      ensures old(client).None? ==> client == None && r == Failure(EncodeFailed)
      ensures socketName == old(socketName)
    {
      id := BeginCall();
      var err := SendCommand(id, arguments, marshal, payloadWritten, terminatorWritten);
      if err.Some? {
        EndCall(id);
        assert waitingRequests == old(waitingRequests);
        return id, Failure(err.value);
      }
      Deliver(Decoded(reply));
      r := Receive(id);
      EndCall(id);
      assert waitingRequests == old(waitingRequests);
    }

    /**
      `Close`, given whether closing the socket succeeded. On success the
      connection has no socket; on failure nothing changes. The pending table
      is left as it is. Closing a nil socket panics in the source.
    */
    method Close(closed: bool) returns (err: Option<Error>)
      requires client.Some?
      modifies this
      ensures closed ==> err == None && client == None
      ensures !closed ==> err == Some(CloseFailed) && client == old(client)
      ensures socketName == old(socketName) && lastRequest == old(lastRequest)
      ensures waitingRequests == old(waitingRequests)
    {
      if !closed {
        return Some(CloseFailed);
      }
      client := None;
      err := None;
    }
  }
}
