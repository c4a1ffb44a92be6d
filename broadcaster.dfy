/**
 * sse/broadcaster.js: the set of open Server-Sent-Events responses and the
 * broadcast that writes one event frame to each of them. A response is named by a
 * `SinkId`; whether writing to it succeeds is the outcome oracle `writeOk`.
 */
module Broadcaster {
  import opened Wrappers
  import opened JsValues

  /** An open event-stream response. */
  type SinkId = nat

  /** `{event, data}`: the object every frame carries. */
  function EventJson(name: string, data: JVal): JVal {
    Obj(map["event" := Str(name), "data" := data])
  }

  const DataPrefix: string := "data: "
  const FrameEnd: string := "\n\n"

  /** One event-stream frame: `data: <json>` and a blank line. */
  function Frame(json: string): (f: string)
    ensures |f| == |DataPrefix| + |json| + |FrameEnd|
  {
    DataPrefix + json + FrameEnd
  }

  /** Reading a frame back: the text after `data: ` and before the closing blank line, if the frame is well formed. */
  function FrameData(f: string): (r: Option<string>)
    ensures r.Some? ==> Frame(r.value) == f
  {
    if |f| >= |DataPrefix| + |FrameEnd| && f[..|DataPrefix|] == DataPrefix && f[|f| - |FrameEnd|..] == FrameEnd
    then
      var json := f[|DataPrefix|..|f| - |FrameEnd|];
      assert DataPrefix + json + FrameEnd == f[..|DataPrefix|] + json + f[|f| - |FrameEnd|..];
      assert f == f[..|DataPrefix|] + f[|DataPrefix|..|f| - |FrameEnd|] + f[|f| - |FrameEnd|..];
      Some(json)
    else None
  }

  /** A frame carries exactly the JSON text it was built from. */
  lemma FrameRoundTrip(json: string)
    ensures FrameData(Frame(json)) == Some(json)
  {
    var f := Frame(json);
    assert f[..|DataPrefix|] == DataPrefix;
    assert f[|f| - |FrameEnd|..] == FrameEnd;
    assert f[|DataPrefix|..|f| - |FrameEnd|] == json;
  }

  /**
   * A frame whose JSON text has no line break has line breaks only in its last two
   * places, so a client reads it as exactly one event.
   */
  lemma FrameIsOneEvent(json: string)
    requires forall k :: 0 <= k < |json| ==> json[k] != '\n'
    ensures forall k :: 0 <= k < |Frame(json)| ==> (Frame(json)[k] == '\n' <==> k >= |Frame(json)| - 2)
  {
    var f := Frame(json);
    forall k | 0 <= k < |f|
      ensures f[k] == '\n' <==> k >= |f| - 2
    {
      if k < |DataPrefix| {
        assert f[k] == DataPrefix[k];
      } else if k < |DataPrefix| + |json| {
        assert f[k] == json[k - |DataPrefix|];
      } else {
        assert f[k] == FrameEnd[k - |DataPrefix| - |json|];
      }
    }
  }

  /** The sinks that stay registered after a broadcast: those whose write succeeded. */
  function Survivors(clients: set<SinkId>, writeOk: SinkId -> bool): (r: set<SinkId>)
    ensures r <= clients
    ensures forall s :: s in clients ==> (s in r <==> writeOk(s))
  {
    set s | s in clients && writeOk(s)
  }

  /** What every stream has received after `payload` is written to the sinks of `clients` whose write succeeds. */
  function Delivered(written: map<SinkId, seq<string>>, clients: set<SinkId>, writeOk: SinkId -> bool, payload: string)
    : (r: map<SinkId, seq<string>>)
    ensures r.Keys == written.Keys
    ensures forall s :: s in written ==>
      r[s] == if s in clients && writeOk(s) then written[s] + [payload] else written[s]
  {
    map s | s in written :: if s in clients && writeOk(s) then written[s] + [payload] else written[s]
  }

  /** Delivering to one more sink changes only that sink's stream. */
  lemma DeliveredOneMore(written: map<SinkId, seq<string>>, done: set<SinkId>, writeOk: SinkId -> bool,
                         payload: string, s: SinkId)
    requires s in written && s !in done
    ensures Delivered(written, done + {s}, writeOk, payload) ==
      if writeOk(s) then Delivered(written, done, writeOk, payload)[s := written[s] + [payload]]
      else Delivered(written, done, writeOk, payload)
  {
  }

  /**
   * The module-level `clients` set, together with what has been written to every
   * response stream so far (`written`), the only observable effect of a broadcast.
   */
  class Hub {
    var clients: set<SinkId>
    var written: map<SinkId, seq<string>>

    /** Every registered sink has a stream. */
    predicate Valid()
      reads this
    {
      clients <= written.Keys
    }

    constructor ()
      ensures Valid()
      ensures clients == {} && written == map[]
    {
      clients := {};
      written := map[];
    }

    /** `addClient(res)`: registers the sink; a new stream starts empty, so it receives nothing sent earlier. */
    method AddClient(s: SinkId)
      requires Valid()
      modifies this
      ensures Valid()
      ensures clients == old(clients) + {s}
      ensures written == if s in old(written) then old(written) else old(written)[s := []]
    {
      clients := clients + {s};
      if s !in written {
        written := written[s := []];
      }
    }

    /** The response's 'close' handler: removes exactly that sink. */
    method OnClose(s: SinkId)
      requires Valid()
      modifies this
      ensures Valid()
      ensures clients == old(clients) - {s}
      ensures written == old(written)
    {
      clients := clients - {s};
    }

    /**
     * `broadcast(eventName, data)`: one payload, written to every sink registered at
     * the start; a sink whose write throws is removed and the loop goes on. Nothing
     * escapes, no sink is added and no sink whose write succeeded is removed.
     */
    method Broadcast(name: string, data: JVal, b: Builtins, writeOk: SinkId -> bool) returns (payload: string)
      requires Valid()
      modifies this
      ensures Valid()
      ensures payload == Frame(b.stringify(EventJson(name, data)))
      ensures clients == Survivors(old(clients), writeOk)
      ensures written == Delivered(old(written), old(clients), writeOk, payload)
    {
      payload := Frame(b.stringify(EventJson(name, data)));
      var todo := clients;
      while todo != {}
        invariant todo <= old(clients) && old(clients) <= written.Keys
        invariant clients == set s | s in old(clients) && (s in todo || writeOk(s))
        invariant written == Delivered(old(written), old(clients) - todo, writeOk, payload)
        decreases todo
      {
        var s :| s in todo;
        DeliveredOneMore(old(written), old(clients) - todo, writeOk, payload, s);
        assert old(clients) - (todo - {s}) == (old(clients) - todo) + {s};
        if writeOk(s) {
          written := written[s := written[s] + [payload]];
        } else {
          clients := clients - {s};
        }
        todo := todo - {s};
      }
    }
  }
}
