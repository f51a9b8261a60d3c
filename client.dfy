/**
 * The sequential core of the LSP client: the request-id counter, the table of
 * pending requests, the reader's dispatch of received messages, the
 * bookkeeping of `send_request`, and the order of the steps of `shutdown`.
 *
 * The server process and the concurrency are abstracted: what the server
 * writes is a byte stream given to the reader; whether a write to its stdin
 * succeeds is a parameter; the messages the reader dispatches while a request
 * waits are a parameter of that request. A request that has received nothing
 * when its wait ends has timed out.
 */
module LspClient {
  import opened Wrappers
  import opened Ints
  import opened Utf8
  import opened JsonRpc
  import opened Framing

  /** The request table: the ids whose channel is still registered, and the
      responses sent down a channel and not yet received by its request. */
  datatype Table = Table(pending: set<i32>, delivered: map<i32, Json>)

  /** The id handed to the `k`-th request (counting from 0): the counter starts
      at 1 and `fetch_add(1)` wraps at `i32::MAX`. */
  function IdOf(k: nat): (id: i32)
    ensures k < I32_MAX ==> id == k + 1
  {
    WrapI32(1 + k)
  }

  /** Ids are strictly increasing, hence never reused, over the first
      `i32::MAX` requests. */
  lemma IdsIncrease(j: nat, k: nat)
    requires j < k < I32_MAX
    ensures IdOf(j) < IdOf(k)
  {
  }

  /** The request after the `i32::MAX`-th gets the id `i32::MIN`. */
  lemma IdWrapsAfterMax()
    ensures IdOf(I32_MAX - 1) == I32_MAX
    ensures IdOf(I32_MAX) == I32_MIN
  {
    WrapAtMax();
  }

  /** Taking the next id keeps the counter and the ids handed out in step. */
  lemma IssueNext(issued: seq<i32>)
    requires forall k :: 0 <= k < |issued| ==> issued[k] == IdOf(k)
    ensures forall k :: 0 <= k < |issued| + 1 ==> (issued + [IdOf(|issued|)])[k] == IdOf(k)
    ensures IncI32(IdOf(|issued|)) == IdOf(|issued| + 1)
  {
    IncIsWrap(IdOf(|issued|));
    WrapSucc(1 + |issued|);
  }

  /** One message handed to the dispatch of the reader loop: a value with an
      "id" that parses as a response whose id is pending resolves that entry
      and only that one; anything else leaves the table as it is. */
  function Dispatch(t: Table, v: Json): (r: Table)
    ensures !HasId(v) ==> r == t
    ensures r == t
            || exists id :: id in t.pending && Get(v, "id") == Some(JInt(id))
                            && r == Table(t.pending - {id}, t.delivered[id := v])
  {
    if !HasId(v) then t
    else
      match ParseResponse(v)
      case None => t
      case Some(response) =>
        if response.id in t.pending then
          Table(t.pending - {response.id}, t.delivered[response.id := v])
        else t
  }

  /** The messages `vs`, dispatched in order. */
  function DispatchAll(t: Table, vs: seq<Json>): Table
    decreases |vs|
  {
    if vs == [] then t else DispatchAll(Dispatch(t, vs[0]), vs[1..])
  }

  lemma DispatchAllAppend(t: Table, vs: seq<Json>, v: Json)
    ensures DispatchAll(t, vs + [v]) == Dispatch(DispatchAll(t, vs), v)
    decreases |vs|
  {
    if vs != [] {
      assert (vs + [v])[1..] == vs[1..] + [v];
      DispatchAllAppend(Dispatch(t, vs[0]), vs[1..], v);
    }
  }

  /** Dispatching never adds a pending entry. */
  lemma {:induction false} DispatchAllShrinks(t: Table, vs: seq<Json>)
    ensures DispatchAll(t, vs).pending <= t.pending
    decreases |vs|
  {
    if vs != [] {
      DispatchAllShrinks(Dispatch(t, vs[0]), vs[1..]);
    }
  }

  /** Notifications never touch the table. */
  lemma {:induction false} NotificationsLeaveTable(t: Table, vs: seq<Json>)
    requires forall i :: 0 <= i < |vs| ==> !HasId(vs[i])
    ensures DispatchAll(t, vs) == t
    decreases |vs|
  {
    if vs != [] {
      NotificationsLeaveTable(Dispatch(t, vs[0]), vs[1..]);
    }
  }

  /** A response whose id is pending resolves that entry. */
  lemma ResponseResolvesEntry(t: Table, v: Json, response: Response)
    requires HasId(v) && ParseResponse(v) == Some(response) && response.id in t.pending
    ensures Dispatch(t, v) == Table(t.pending - {response.id}, t.delivered[response.id := v])
  {
  }

  /** A message whose id is not pending leaves the table as it is. */
  lemma UnknownIdLeavesTable(t: Table, v: Json, id: i32)
    requires Get(v, "id") == Some(JInt(id)) && id !in t.pending
    ensures Dispatch(t, v) == t
  {
  }

  /** The end of `send_request`'s wait: a delivered response gives the request's
      outcome; an entry still pending has timed out and is removed; an entry
      the reader dropped without a response gives "No response received". */
  function Finish(t: Table, id: i32): (r: (Table, Result<Json, RequestError>))
    ensures r.0.pending == t.pending - {id}
    ensures r.0.delivered == t.delivered - {id}
    ensures id in t.delivered ==> r.1 == SelectResult(t.delivered[id])
    ensures id !in t.delivered ==> r.1 == Err(if id in t.pending then Timeout else NoResponse)
  {
    var rest := Table(t.pending - {id}, t.delivered - {id});
    if id in t.delivered then (rest, SelectResult(t.delivered[id]))
    else if id in t.pending then (rest, Err(Timeout))
    else (rest, Err(NoResponse))
  }

  /** `send_request` for the id it took: register the id, write the request,
      then wait while the reader dispatches `incoming`. A failed write returns
      at once and leaves the entry registered. */
  function Request(t: Table, id: i32, writeOk: bool, incoming: seq<Json>): (Table, Result<Json, RequestError>)
  {
    var registered := Table(t.pending + {id}, t.delivered);
    if !writeOk then (registered, Err(WriteFailed))
    else Finish(DispatchAll(registered, incoming), id)
  }

  /** A written request never leaves its id pending. */
  lemma WrittenRequestUnregisters(t: Table, id: i32, incoming: seq<Json>)
    ensures id !in Request(t, id, true, incoming).0.pending
    ensures Request(t, id, true, incoming).0.pending <= t.pending
  {
    DispatchAllShrinks(Table(t.pending + {id}, t.delivered), incoming);
  }

  /** A request whose write fails leaves its id registered. */
  lemma FailedWriteLeaksEntry(t: Table, id: i32, incoming: seq<Json>)
    ensures Request(t, id, false, incoming).0.pending == t.pending + {id}
    ensures Request(t, id, false, incoming).1 == Err(WriteFailed)
  {
  }

  /** The response carrying the request's id decides its outcome by the
      selection of "result" over "error". */
  lemma ReplyDecidesOutcome(t: Table, id: i32, v: Json, response: Response)
    requires HasId(v) && ParseResponse(v) == Some(response) && response.id == id
    ensures Request(t, id, true, [v]).1 == SelectResult(v)
  {
    var registered := Table(t.pending + {id}, t.delivered);
    assert Dispatch(registered, v).delivered == t.delivered[id := v];
    assert DispatchAll(registered, [v]) == Dispatch(registered, v);
  }

  /** A request that receives only notifications times out. */
  lemma SilenceTimesOut(t: Table, id: i32, incoming: seq<Json>)
    requires id !in t.delivered
    requires forall i :: 0 <= i < |incoming| ==> !HasId(incoming[i])
    ensures Request(t, id, true, incoming).1 == Err(Timeout)
  {
    NotificationsLeaveTable(Table(t.pending + {id}, t.delivered), incoming);
  }

  /** The values the reader loop hands to dispatch from the server's output:
      each message that `serde_json::from_str` (the parameter `parse`) accepts,
      until the header loop stops. */
  function ReaderValues(stream: seq<byte>, parse: string -> Option<Json>): seq<Json>
    decreases |stream|
  {
    match DecodeFrame(stream)
    case Message(text, rest) =>
      (match parse(text) case Some(v) => [v] case None => []) + ReaderValues(rest, parse)
    case _ => []
  }

  /** A frame the reader decodes contributes its parsed value, if any, ahead of the rest. */
  lemma ReaderValuesOfMessage(stream: seq<byte>, parse: string -> Option<Json>)
    requires DecodeFrame(stream).Message?
    ensures var f := DecodeFrame(stream);
      ReaderValues(stream, parse)
      == (match parse(f.text) case Some(v) => [v] case None => []) + ReaderValues(f.rest, parse)
  {
  }

  /** When the header loop stops without a message the reader hands over nothing more. */
  lemma ReaderValuesOfStop(stream: seq<byte>, parse: string -> Option<Json>)
    requires !DecodeFrame(stream).Message?
    ensures ReaderValues(stream, parse) == []
  {
  }

  /** A blank line on the server's output stops the reader with nothing dispatched. */
  lemma BlankLineStopsReader(rest: seq<byte>, parse: string -> Option<Json>)
    ensures ReaderValues([13, 10] + rest, parse) == []
  {
    BlankLineEndsHeaders(rest);
  }

  /** An empty serialised value for requests and notifications without parameters. */
  const NoParams: string := "null"

  class Client {
    /** `request_id`: the id the next request takes. */
    var nextId: i32
    /** The keys of `pending_requests`. */
    var pending: set<i32>
    /** Responses sent down a channel and not yet received. */
    var delivered: map<i32, Json>
    /** The bytes written to the server's stdin. */
    var outbox: seq<byte>
    /** The `shutdown` flag. */
    var shutdown: bool
    /** Whether the server process has been killed. */
    var killed: bool
    /** The ids handed out so far, in order. */
    ghost var issued: seq<i32>

    ghost predicate Valid()
      reads this
    {
      nextId == IdOf(|issued|)
      && (forall k :: 0 <= k < |issued| ==> issued[k] == IdOf(k))
    }

    function Snapshot(): Table
      reads this
    {
      Table(pending, delivered)
    }

    /** `LspClient::new` once the process is spawned: counter 1, empty table. */
    constructor ()
      ensures Valid()
      ensures nextId == 1 && pending == {} && delivered == map[] && outbox == []
      ensures !shutdown && !killed && issued == []
    {
      nextId := 1;
      pending := {};
      delivered := map[];
      outbox := [];
      shutdown := false;
      killed := false;
      issued := [];
    }

    /** `send_message`: the message, framed, goes to stdin when the write succeeds. */
    method SendMessage(json: string, writeOk: bool) returns (r: Result<(), RequestError>)
      modifies this
      ensures outbox == old(outbox) + (if writeOk then Frame(json) else [])
      ensures r.Ok? <==> writeOk
      ensures r.Err? ==> r.error == WriteFailed
      ensures nextId == old(nextId) && pending == old(pending) && delivered == old(delivered)
      ensures shutdown == old(shutdown) && killed == old(killed) && issued == old(issued)
    {
      if writeOk {
        outbox := outbox + Frame(json);
        r := Ok(());
      } else {
        r := Err(WriteFailed);
      }
    }

    /** `send_notification`. */
    method SendNotification(methodName: string, params: string, writeOk: bool) returns (r: Result<(), RequestError>)
      modifies this
      ensures outbox == old(outbox) + (if writeOk then Frame(NotificationText(methodName, params)) else [])
      ensures r.Ok? <==> writeOk
      ensures nextId == old(nextId) && pending == old(pending) && delivered == old(delivered)
      ensures shutdown == old(shutdown) && killed == old(killed) && issued == old(issued)
    {
      r := SendMessage(NotificationText(methodName, params), writeOk);
    }

    /** One message handed to the reader's dispatch. */
    method DispatchMessage(v: Json)
      modifies this
      ensures Snapshot() == Dispatch(old(Snapshot()), v)
      ensures nextId == old(nextId) && outbox == old(outbox)
      ensures shutdown == old(shutdown) && killed == old(killed) && issued == old(issued)
    {
      if HasId(v) {
        match ParseResponse(v)
        case Some(response) =>
          if response.id in pending {
            pending := pending - {response.id};
            delivered := delivered[response.id := v];
          }
        case None =>
      }
    }

    /** The first half of `send_request`: take the id, register it, write. */
    method BeginRequest(methodName: string, params: string, writeOk: bool) returns (id: i32, r: Result<(), RequestError>)
      requires Valid()
      modifies this
      ensures Valid()
      ensures id == old(nextId) && issued == old(issued) + [id]
      ensures pending == old(pending) + {id} && delivered == old(delivered)
      ensures outbox == old(outbox) + (if writeOk then Frame(RequestText(id, methodName, params)) else [])
      ensures r.Ok? <==> writeOk
      ensures shutdown == old(shutdown) && killed == old(killed)
    {
      id := nextId;
      IssueNext(issued);
      nextId := IncI32(nextId);
      issued := issued + [id];
      pending := pending + {id};
      r := SendMessage(RequestText(id, methodName, params), writeOk);
    }

    /** The second half of `send_request`: the end of the wait. */
    method FinishRequest(id: i32) returns (r: Result<Json, RequestError>)
      modifies this
      ensures (Snapshot(), r) == Finish(old(Snapshot()), id)
      ensures nextId == old(nextId) && outbox == old(outbox)
      ensures shutdown == old(shutdown) && killed == old(killed) && issued == old(issued)
    {
      if id in delivered {
        r := SelectResult(delivered[id]);
      } else if id in pending {
        r := Err(Timeout);
      } else {
        r := Err(NoResponse);
      }
      pending := pending - {id};
      delivered := delivered - {id};
    }

    /** `send_request`, with the messages the reader dispatches during the wait. */
    method SendRequest(methodName: string, params: string, writeOk: bool, incoming: seq<Json>)
      returns (r: Result<Json, RequestError>)
      requires Valid()
      modifies this
      ensures Valid()
      ensures issued == old(issued) + [old(nextId)]
      ensures (Snapshot(), r) == Request(old(Snapshot()), old(nextId), writeOk, incoming)
      ensures outbox == old(outbox) + (if writeOk then Frame(RequestText(old(nextId), methodName, params)) else [])
      ensures shutdown == old(shutdown) && killed == old(killed)
    {
      var id, sent := BeginRequest(methodName, params, writeOk);
      if sent.Err? {
        return Err(WriteFailed);
      }
      var i := 0;
      while i < |incoming|
        invariant 0 <= i <= |incoming|
        invariant Snapshot() == DispatchAll(Table(old(pending) + {id}, old(delivered)), incoming[..i])
        invariant Valid() && issued == old(issued) + [id] && id == old(nextId)
        invariant outbox == old(outbox) + Frame(RequestText(id, methodName, params))
        invariant shutdown == old(shutdown) && killed == old(killed)
      {
        DispatchMessage(incoming[i]);
        DispatchAllAppend(Table(old(pending) + {id}, old(delivered)), incoming[..i], incoming[i]);
        assert incoming[..i + 1] == incoming[..i] + [incoming[i]];
        i := i + 1;
      }
      assert incoming[..i] == incoming;
      r := FinishRequest(id);
    }

    /** The message handler: read frames from the server's output and
        dispatch them until the header loop stops or the shutdown flag is set,
        then drop every registered entry. */
    method RunReader(stream: seq<byte>, parse: string -> Option<Json>)
      modifies this
      ensures pending == {}
      ensures delivered == DispatchAll(old(Snapshot()), if old(shutdown) then [] else ReaderValues(stream, parse)).delivered
      ensures nextId == old(nextId) && outbox == old(outbox)
      ensures shutdown == old(shutdown) && killed == old(killed) && issued == old(issued)
    {
      var input := stream;
      ghost var seen: seq<Json> := [];
      while true
        invariant Snapshot() == DispatchAll(old(Snapshot()), seen)
        invariant !shutdown ==> seen + ReaderValues(input, parse) == ReaderValues(stream, parse)
        invariant shutdown ==> seen == []
        invariant nextId == old(nextId) && outbox == old(outbox)
        invariant shutdown == old(shutdown) && killed == old(killed) && issued == old(issued)
        decreases |input|
      {
        if shutdown {
          break;
        }
        var frame := ReadFrame(input);
        if !frame.Message? {
          ReaderValuesOfStop(input, parse);
          assert seen + [] == seen;
          break;
        }
        ReaderValuesOfMessage(input, parse);
        var value := parse(frame.text);
        if value.Some? {
          DispatchMessage(value.value);
          DispatchAllAppend(old(Snapshot()), seen, value.value);
          assert seen + ([value.value] + ReaderValues(frame.rest, parse))
              == (seen + [value.value]) + ReaderValues(frame.rest, parse);
          seen := seen + [value.value];
        } else {
          assert [] + ReaderValues(frame.rest, parse) == ReaderValues(frame.rest, parse);
        }
        input := frame.rest;
      }
      pending := {};
    }

    /** `shutdown`: set the flag, send the shutdown request, send exit whatever
        happened, drop every registered entry, kill the process, and return
        the shutdown request's outcome. */
    method Shutdown(writeOk: bool, incoming: seq<Json>, exitWriteOk: bool) returns (r: Result<Json, RequestError>)
      requires Valid()
      modifies this
      ensures Valid()
      ensures shutdown && killed && pending == {}
      ensures r == Request(old(Snapshot()), old(nextId), writeOk, incoming).1
      ensures delivered == Request(old(Snapshot()), old(nextId), writeOk, incoming).0.delivered
      ensures outbox == old(outbox)
                        + (if writeOk then Frame(RequestText(old(nextId), "shutdown", NoParams)) else [])
                        + (if exitWriteOk then Frame(NotificationText("exit", NoParams)) else [])
    {
      shutdown := true;
      r := SendRequest("shutdown", NoParams, writeOk, incoming);
      var _ := SendNotification("exit", NoParams, exitWriteOk);
      pending := {};
      killed := true;
    }
  }
}
