/**
 * The change-detection loop behind the server-sent price stream. Each iteration of the loop
 * first asks whether the client has gone, then reads the cache's version and contents; the
 * sequence of what those reads returned is a trace of observations. Events follow the
 * `text/event-stream` format of section 9.2 (Server-sent events) of the WHATWG HTML Living
 * Standard: a `retry:` field first, then one `data:` event per emission.
 */
module Stream {
  import opened Models
  import opened Cache

  /** What one loop iteration saw: the disconnect flag, then the cache's version and contents. */
  datatype Observation = Observation(disconnected: bool, version: nat, prices: map<string, PriceUpdate>)

  /** The payload of a data event: every cached ticker mapped to its serialised snapshot. */
  type Payload = map<string, map<string, Value>>

  /** A server-sent event: the reconnect delay in milliseconds, or one price payload. */
  datatype Event = Retry(millis: nat) | Data(payload: Payload)

  /** The reconnect delay sent before anything else. */
  const RetryMillis: nat := 1000

  /** The version sentinel the loop starts from; no cache version equals it. */
  const NoVersion: int := -1

  /** Serialise a cache snapshot for one data event. */
  function PayloadOf(prices: map<string, PriceUpdate>): (p: Payload)
    ensures p.Keys == prices.Keys
    ensures forall t :: t in p ==> p[t].Keys == DictKeys && p[t]["ticker"] == Text(prices[t].ticker)
                                   && p[t]["price"] == Number(prices[t].price)
    ensures forall t :: t in p ==> p[t] == prices[t].ToDict()
  {
    map t | t in prices :: prices[t].ToDict()
  }

  /** The events one live iteration emits: the payload, if the version moved and the cache is non-empty. */
  function Emitted(o: Observation, last: int): (events: seq<Event>)
    ensures |events| <= 1
    ensures events != [] <==> o.version != last && o.prices != map[]
  {
    if o.version != last && o.prices != map[] then [Data(PayloadOf(o.prices))] else []
  }

  /** The last version seen after a live iteration: the iteration's version, whether or not it emitted. */
  function Seen(o: Observation, last: int): int {
    if o.version != last then o.version else last
  }

  /**
   * The data events produced by the iterations in `trace`, when the last version seen so far
   * is `last`: the loop ends at the first disconnect; each live iteration emits what `Emitted`
   * says and moves on with `Seen` as the last version.
   */
  function Emissions(trace: seq<Observation>, last: int): (events: seq<Event>)
    ensures |events| <= |trace|
    decreases |trace|
  {
    if trace == [] || trace[0].disconnected then []
    else Emitted(trace[0], last) + Emissions(trace[1..], Seen(trace[0], last))
  }

  /**
   * The generator: yields the retry directive, then runs the loop over the observations it
   * makes, until the client disconnects (or the observations run out).
   */
  method GenerateEvents(trace: seq<Observation>) returns (events: seq<Event>)
    ensures events == [Retry(RetryMillis)] + Emissions(trace, NoVersion)
  {
    events := [Retry(RetryMillis)];
    var last := NoVersion;
    var i := 0;
    while i < |trace| && !trace[i].disconnected
      invariant 0 <= i <= |trace|
      invariant events + Emissions(trace[i..], last) == [Retry(RetryMillis)] + Emissions(trace, NoVersion)
    {
      ghost var before := events;
      ghost var rest := trace[i..];
      assert rest[0] == trace[i] && rest[1..] == trace[i + 1..];
      var o := trace[i];
      ghost var emitted := Emitted(o, last);
      ghost var later := Emissions(trace[i + 1..], Seen(o, last));
      assert Emissions(rest, last) == emitted + later;
      if o.version != last {
        last := o.version;
        if o.prices != map[] {
          events := events + [Data(PayloadOf(o.prices))];
        }
      }
      assert events == before + emitted;
      Associative(before, emitted, later);
      i := i + 1;
    }
    assert Emissions(trace[i..], last) == [];
  }

  /** Appending in two steps is appending once. */
  lemma Associative(a: seq<Event>, b: seq<Event>, c: seq<Event>)
    ensures (a + b) + c == a + (b + c)
  {
  }

  /** Appending nothing changes nothing. */
  lemma AppendNothing(a: seq<Event>)
    ensures a + [] == a
  {
  }

  /** The first iteration, if the client is still there and the cache has prices, emits them. */
  lemma FirstLiveIterationEmits(trace: seq<Observation>)
    requires trace != [] && !trace[0].disconnected && trace[0].prices != map[]
    ensures Emissions(trace, NoVersion) != []
    ensures Emissions(trace, NoVersion)[0] == Data(PayloadOf(trace[0].prices))
  {
  }

  /** While the version stays at the last one seen, nothing is emitted, whatever the cache holds. */
  lemma {:induction false} UnchangedVersionSilent(trace: seq<Observation>, last: int)
    requires forall k :: 0 <= k < |trace| ==> trace[k].version == last
    ensures Emissions(trace, last) == []
    decreases |trace|
  {
    if trace != [] && !trace[0].disconnected {
      assert forall k :: 0 <= k < |trace[1..]| ==> trace[1..][k] == trace[k + 1];
      UnchangedVersionSilent(trace[1..], last);
    }
  }

  /**
   * A removal does not bump the version, so once a version has been streamed, dropping tickers
   * from the cache at that version is not streamed: the client keeps the removed tickers.
   */
  lemma RemovalNotStreamed(o: Observation, rest: seq<Observation>)
    requires !o.disconnected
    requires forall k :: 0 <= k < |rest| ==> rest[k].version == o.version
    ensures Emissions([o] + rest, NoVersion) == Emitted(o, NoVersion)
  {
    var trace := [o] + rest;
    assert trace[0] == o && trace[1..] == rest;
    assert Seen(o, NoVersion) == o.version;
    UnchangedVersionSilent(rest, o.version);
    AppendNothing(Emitted(o, NoVersion));
  }

  /** A cache that stays empty is never streamed, even as its version moves on. */
  lemma {:induction false} EmptyCacheSilent(trace: seq<Observation>, last: int)
    requires forall k :: 0 <= k < |trace| ==> trace[k].prices == map[]
    ensures Emissions(trace, last) == []
    decreases |trace|
  {
    if trace != [] && !trace[0].disconnected {
      assert forall k :: 0 <= k < |trace[1..]| ==> trace[1..][k] == trace[k + 1];
      EmptyCacheSilent(trace[1..], trace[0].version);
      EmptyCacheSilent(trace[1..], last);
    }
  }

  /** After a disconnect nothing more is read: what the trace holds past it changes nothing. */
  lemma {:induction false} DisconnectEnds(before: seq<Observation>, o: Observation,
                                          after1: seq<Observation>, after2: seq<Observation>, last: int)
    requires o.disconnected
    ensures Emissions(before + [o] + after1, last) == Emissions(before + [o] + after2, last)
    decreases |before|
  {
    if before == [] {
      assert (before + [o] + after1)[0] == o;
      assert (before + [o] + after2)[0] == o;
    } else {
      var b := before[0];
      assert (before + [o] + after1)[0] == b && (before + [o] + after2)[0] == b;
      assert (before + [o] + after1)[1..] == before[1..] + [o] + after1;
      assert (before + [o] + after2)[1..] == before[1..] + [o] + after2;
      DisconnectEnds(before[1..], o, after1, after2, b.version);
      DisconnectEnds(before[1..], o, after1, after2, last);
    }
  }
}
