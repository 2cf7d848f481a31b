/**
 * The broadcast handle of `server/socket.js`: a module-level variable that
 * `init` assigns and `getIO` reads, failing while it is still unset.
 */
module Socket {
  import opened Wrappers

  const UninitializedMessage: string := "Socket is uninitialized"

  /** A socket.io server attached to one HTTP server; socket.io itself is opaque. */
  class Io {
    const httpServer: nat

    constructor (httpServer: nat)
      ensures this.httpServer == httpServer
    {
      this.httpServer := httpServer;
    }
  }

  /** What `getIO` answers in a state. */
  function GetIOResult<H>(io: Option<H>): (r: Result<H, string>)
    ensures r.Failure? <==> io.None?
    ensures r.Failure? ==> r.error == UninitializedMessage
    ensures io.Some? ==> r == Success(io.value)
  {
    match io
    case None => Failure(UninitializedMessage)
    case Some(h) => Success(h)
  }

  /** The exported object with its one piece of state. */
  class SocketRegistry {
    var io: Option<Io>

    constructor ()
      ensures io == None
    {
      io := None;
    }

    /** `init(httpServer)`: attaches a new server and keeps it, replacing any earlier one. */
    method Init(httpServer: nat) returns (h: Io)
      modifies this
      ensures fresh(h) && h.httpServer == httpServer
      ensures io == Some(h)
    {
      h := new Io(httpServer);
      io := Some(h);
    }

    /** `getIO()`: the kept server, or the error while there is none. Changes nothing. */
    method GetIO() returns (r: Result<Io, string>)
      ensures r == GetIOResult(io)
      ensures r.Failure? <==> io.None?
    {
      if io.None? {
        return Failure(UninitializedMessage);
      }
      return Success(io.value);
    }
  }

  /** A call on the module: `init` with the server it creates, or `getIO`. */
  datatype Call<H> = InitCall(created: H) | GetIOCall

  /** The state after a sequence of calls, applied one after the other from `io`. */
  function Run<H>(io: Option<H>, calls: seq<Call<H>>): Option<H>
    decreases |calls|
  {
    if calls == [] then io
    else match calls[0]
      case InitCall(h) => Run(Some(h), calls[1..])
      case GetIOCall => Run(io, calls[1..])
  }

  /** The handle of the last `init` among `calls`, if there is one. */
  function LastInit<H>(calls: seq<Call<H>>): Option<H> {
    if calls == [] then None
    else match calls[|calls| - 1]
      case InitCall(h) => Some(h)
      case GetIOCall => LastInit(calls[..|calls| - 1])
  }

  lemma {:induction false} RunAppend<H>(io: Option<H>, calls: seq<Call<H>>, c: Call<H>)
    ensures Run(io, calls + [c]) == match c { case InitCall(h) => Some(h) case GetIOCall => Run(io, calls) }
    decreases |calls|
  {
    if calls == [] {
      assert [c][1..] == [];
    } else {
      assert (calls + [c])[1..] == calls[1..] + [c];
      match calls[0]
      case InitCall(h) => RunAppend(Some(h), calls[1..], c);
      case GetIOCall => RunAppend(io, calls[1..], c);
    }
  }

  /**
   * From the initial state, `getIO` after any sequence of calls fails exactly
   * when there was no `init`, and otherwise returns what the last `init`
   * returned: `getIO` never changes the state and a later `init` replaces an
   * earlier one.
   */
  lemma {:induction false} GetIOAfter<H>(calls: seq<Call<H>>)
    ensures Run(None, calls) == LastInit(calls)
    ensures GetIOResult(Run(None, calls)).Failure? <==> forall i :: 0 <= i < |calls| ==> calls[i].GetIOCall?
  {
    if calls != [] {
      var front, c := calls[..|calls| - 1], calls[|calls| - 1];
      assert calls == front + [c];
      GetIOAfter(front);
      RunAppend(None, front, c);
      if c.GetIOCall? && LastInit(front).Some? {
        var i :| 0 <= i < |front| && !front[i].GetIOCall?;
        assert calls[i] == front[i];
      }
    }
  }
}
