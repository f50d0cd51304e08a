/**
 * The server-query target table of the networking layer: the list of
 * targets being queried, and the operations that dispatch queries, time
 * them out, record responses and count responders.
 *
 * The table is a value; each operation returns the new table together with
 * whatever it hands to the outside world (the destination of a query packet,
 * a callback notification). The clock is a parameter: each reading of the
 * millisecond timer is passed in as an unsigned 32-bit `now`, and elapsed
 * times are computed with the same unsigned wrap-around as the source.
 * Addresses are compared by identity; `NoAddr` is the null address the LAN
 * broadcast target uses.
 */
module NetQuery {
  import opened Wrappers

  const TWO_TO_THE_32: int := 0x1_0000_0000

  /** An `unsigned int` of the source. */
  type uint32 = x: int | 0 <= x < 0x1_0000_0000

  /** Seconds to wait for a response before querying again (or giving up). */
  const QUERY_TIMEOUT_SECS: nat := 2

  /** Queries sent to a target before it may be declared unresponsive. */
  const QUERY_MAX_ATTEMPTS: nat := 3

  /** Minimum milliseconds between two query packets. */
  const QUERY_INTERVAL_MS: nat := 50

  const QUERY_TIMEOUT_MS: nat := QUERY_TIMEOUT_SECS * 1000

  /** `now - since` on unsigned 32-bit operands. */
  function Elapsed(now: uint32, since: uint32): (d: uint32)
    ensures since <= now ==> d == now - since
    ensures now < since ==> d == TWO_TO_THE_32 - (since - now)
  {
    (now - since) % TWO_TO_THE_32
  }

  /** `++n` on an unsigned 32-bit counter. */
  function Inc(n: uint32): (m: uint32)
    ensures n + 1 < TWO_TO_THE_32 ==> m == n + 1
    ensures n + 1 == TWO_TO_THE_32 ==> m == 0
  {
    (n + 1) % TWO_TO_THE_32
  }

  datatype TargetType = Server | Broadcast

  datatype TargetState = Queued | Queried | Responded | NoResponse

  /** A network address, by identity; `NoAddr` is the null address. */
  datatype Addr = NoAddr | Peer(id: nat)

  /** The parsed body of a query response, kept abstract. */
  datatype QueryData = QueryData(fields: seq<int>)

  /** One target. `data` is `None` until the target has responded. */
  datatype Target = Target(
    kind: TargetType,
    state: TargetState,
    addr: Addr,
    data: Option<QueryData>,
    pingTime: uint32,
    queryTime: uint32,
    attempts: uint32)

  /** The targets, and the time the last query packet was sent. */
  datatype QueryTable = QueryTable(targets: seq<Target>, lastQueryTime: uint32)

  /** A freshly created target: a server, not yet queried. */
  function NewTarget(addr: Addr): (t: Target)
    ensures t.kind == Server && t.state == Queued && t.addr == addr && t.attempts == 0
  {
    Target(Server, Queued, addr, None, 0, 0, 0)
  }

  // ---------------------------------------------------------------------
  // Looking up targets by address

  predicate HasAddr(targets: seq<Target>, addr: Addr) {
    exists i :: 0 <= i < |targets| && targets[i].addr == addr
  }

  /** `i` is the first target whose address is `addr`. */
  predicate IsFirstWithAddr(targets: seq<Target>, addr: Addr, i: int) {
    && 0 <= i < |targets|
    && targets[i].addr == addr
    && forall j :: 0 <= j < i ==> targets[j].addr != addr
  }

  /** No two targets share an address. */
  predicate DistinctAddrs(targets: seq<Target>) {
    forall i, j :: 0 <= i < j < |targets| ==> targets[i].addr != targets[j].addr
  }

  function FindFrom(targets: seq<Target>, addr: Addr, i: nat): (r: Option<nat>)
    requires i <= |targets|
    ensures r.Some? ==> i <= r.value < |targets| && targets[r.value].addr == addr
    ensures r.Some? ==> forall j :: i <= j < r.value ==> targets[j].addr != addr
    ensures r.None? ==> forall j :: i <= j < |targets| ==> targets[j].addr != addr
    decreases |targets| - i
  {
    if i == |targets| then None
    else if targets[i].addr == addr then Some(i)
    else FindFrom(targets, addr, i + 1)
  }

  /** The index of the first target with address `addr`, if any. */
  function FindTarget(targets: seq<Target>, addr: Addr): (r: Option<nat>)
    ensures r.Some? ==> IsFirstWithAddr(targets, addr, r.value)
    ensures r.None? <==> !HasAddr(targets, addr)
  {
    FindFrom(targets, addr, 0)
  }

  /** The result of `GetTargetForAddr`: the table after the call, and the target found or created. */
  datatype Lookup = Lookup(targets: seq<Target>, index: Option<nat>)

  /**
   * `GetTargetForAddr`: the first target with address `addr`; if there is
   * none and `create` is set, a new queued server target for `addr` is
   * appended and returned.
   */
  function GetTargetForAddr(targets: seq<Target>, addr: Addr, create: bool): (r: Lookup)
    ensures HasAddr(targets, addr) ==>
              r.targets == targets && r.index.Some? && IsFirstWithAddr(targets, addr, r.index.value)
    ensures !HasAddr(targets, addr) && !create ==> r == Lookup(targets, None)
    ensures !HasAddr(targets, addr) && create ==>
              r.targets == targets + [NewTarget(addr)] && r.index == Some(|targets|)
  {
    match FindTarget(targets, addr)
    case Some(i) => Lookup(targets, Some(i))
    case None => if create then Lookup(targets + [NewTarget(addr)], Some(|targets|)) else Lookup(targets, None)
  }

  /** Creating targets never duplicates an address. */
  lemma GetTargetKeepsAddrsDistinct(targets: seq<Target>, addr: Addr, create: bool)
    requires DistinctAddrs(targets)
    ensures DistinctAddrs(GetTargetForAddr(targets, addr, create).targets)
  {
    var after := GetTargetForAddr(targets, addr, create).targets;
    if after != targets {
      forall i | 0 <= i < |targets|
        ensures after[i].addr != after[|targets|].addr
      {
        assert after[i] == targets[i];
      }
    }
  }

  /** Looking up an address a second time finds the target the first call found or created, and adds nothing. */
  lemma GetTargetIsStable(targets: seq<Target>, addr: Addr, create: bool)
    ensures var first := GetTargetForAddr(targets, addr, create);
            GetTargetForAddr(first.targets, addr, create) == first
  {
    var first := GetTargetForAddr(targets, addr, create);
    if !HasAddr(targets, addr) && create {
      var after := first.targets;
      assert after[|targets|].addr == addr;
      forall j | 0 <= j < |targets|
        ensures after[j].addr != addr
      {
        assert after[j] == targets[j];
      }
      assert IsFirstWithAddr(after, addr, |targets|);
    }
  }

  // ---------------------------------------------------------------------
  // Progress of a table

  /**
   * `after` is a later version of `before`: no target is removed, every
   * target keeps its address and type, and a target that has responded
   * never changes again.
   */
  predicate Progress(before: seq<Target>, after: seq<Target>) {
    && |before| <= |after|
    && (forall i :: 0 <= i < |before| ==> after[i].addr == before[i].addr && after[i].kind == before[i].kind)
    && (forall i :: 0 <= i < |before| && before[i].state == Responded ==> after[i] == before[i])
  }

  lemma ProgressTransitive(a: seq<Target>, b: seq<Target>, c: seq<Target>)
    requires Progress(a, b) && Progress(b, c)
    ensures Progress(a, c)
  {
  }

  // ---------------------------------------------------------------------
  // Sending queries

  /** A target that should be queried now: never queried, or queried and timed out. */
  predicate DueForQuery(t: Target, now: uint32) {
    t.state == Queued || (t.state == Queried && Elapsed(now, t.queryTime) > QUERY_TIMEOUT_MS)
  }

  predicate IsFirstDue(targets: seq<Target>, now: uint32, i: int) {
    && 0 <= i < |targets|
    && DueForQuery(targets[i], now)
    && forall j :: 0 <= j < i ==> !DueForQuery(targets[j], now)
  }

  function DueFrom(targets: seq<Target>, now: uint32, i: nat): (r: Option<nat>)
    requires i <= |targets|
    ensures r.Some? ==> i <= r.value < |targets| && DueForQuery(targets[r.value], now)
    ensures r.Some? ==> forall j :: i <= j < r.value ==> !DueForQuery(targets[j], now)
    ensures r.None? ==> forall j :: i <= j < |targets| ==> !DueForQuery(targets[j], now)
    decreases |targets| - i
  {
    if i == |targets| then None
    else if DueForQuery(targets[i], now) then Some(i)
    else DueFrom(targets, now, i + 1)
  }

  /** The target the dispatch loop stops at. */
  function FirstDue(targets: seq<Target>, now: uint32): (r: Option<nat>)
    ensures r.Some? ==> IsFirstDue(targets, now, r.value)
    ensures r.None? <==> forall j :: 0 <= j < |targets| ==> !DueForQuery(targets[j], now)
  {
    DueFrom(targets, now, 0)
  }

  /** Where the query packet for `t` goes: its own address for a server, a broadcast (`NoAddr`) otherwise. */
  function QueryDestination(t: Target): (dest: Addr)
    ensures t.kind == Broadcast ==> dest == NoAddr
    ensures t.kind == Server ==> dest == t.addr
  {
    match t.kind
    case Server => t.addr
    case Broadcast => NoAddr
  }

  /** The result of `SendOneQuery`: the table after the call, and the destination of the packet sent, if one was. */
  datatype Sent = Sent(table: QueryTable, query: Option<Addr>)

  /**
   * `SendOneQuery`: at most one query per 50 ms. The first target that is
   * due is queried: it becomes `Queried` with `queryTime = now` and one more
   * attempt, the table remembers `now` as the last query time, and nothing
   * else changes.
   */
  function SendOneQuery(table: QueryTable, now: uint32): (r: Sent)
    ensures Elapsed(now, table.lastQueryTime) < QUERY_INTERVAL_MS ==> r == Sent(table, None)
    ensures FirstDue(table.targets, now).None? ==> r == Sent(table, None)
    ensures r.query.Some? <==>
              Elapsed(now, table.lastQueryTime) >= QUERY_INTERVAL_MS && FirstDue(table.targets, now).Some?
    ensures r.query.Some? ==>
              var i := FirstDue(table.targets, now).value;
              var t := table.targets[i];
              && r.query.value == QueryDestination(t)
              && r.table.lastQueryTime == now
              && |r.table.targets| == |table.targets|
              && r.table.targets[i] == t.(state := Queried, queryTime := now, attempts := Inc(t.attempts))
              && forall j :: 0 <= j < |table.targets| && j != i ==> r.table.targets[j] == table.targets[j]
  {
    if Elapsed(now, table.lastQueryTime) < QUERY_INTERVAL_MS then Sent(table, None)
    else
      match FirstDue(table.targets, now)
      case None => Sent(table, None)
      case Some(i) =>
        var t := table.targets[i];
        var queried := t.(state := Queried, queryTime := now, attempts := Inc(t.attempts));
        Sent(QueryTable(table.targets[i := queried], now), Some(QueryDestination(t)))
  }

  /** Sending a query never removes, re-addresses or disturbs a responded target. */
  lemma SendOneQueryProgress(table: QueryTable, now: uint32)
    ensures Progress(table.targets, SendOneQuery(table, now).table.targets)
  {
  }

  /** Right after a query is sent, no other query goes out within the next 50 ms. */
  lemma SendOneQueryRateLimited(table: QueryTable, now: uint32, later: uint32)
    requires SendOneQuery(table, now).query.Some?
    requires Elapsed(later, now) < QUERY_INTERVAL_MS
    ensures var t := SendOneQuery(table, now).table;
            SendOneQuery(t, later) == Sent(t, None)
  {
  }

  // ---------------------------------------------------------------------
  // Timing out targets

  /** A target that has used up its attempts and waited out the last one. */
  predicate TimedOut(t: Target, now: uint32) {
    && t.state == Queried
    && t.attempts >= QUERY_MAX_ATTEMPTS
    && Elapsed(now, t.queryTime) > QUERY_TIMEOUT_MS
  }

  /**
   * One iteration of the timeout sweep: only the state may change, and a
   * target ends up no-response iff it already was or has timed out.
   */
  function Expire(t: Target, now: uint32): (e: Target)
    ensures e.(state := t.state) == t
    ensures e.state == NoResponse <==> t.state == NoResponse || TimedOut(t, now)
    ensures e.state != t.state ==> t.state == Queried
  {
    if TimedOut(t, now) then t.(state := NoResponse) else t
  }

  /**
   * `CheckTargetTimeouts`: exactly the timed-out targets become
   * `NoResponse`, changing nothing else about them; every other target is
   * untouched.
   */
  function CheckTargetTimeouts(targets: seq<Target>, now: uint32): (after: seq<Target>)
    ensures |after| == |targets|
    ensures forall i :: 0 <= i < |targets| && TimedOut(targets[i], now) ==> after[i] == targets[i].(state := NoResponse)
    ensures forall i :: 0 <= i < |targets| && !TimedOut(targets[i], now) ==> after[i] == targets[i]
    decreases |targets|
  {
    if |targets| == 0 then []
    else CheckTargetTimeouts(targets[..|targets| - 1], now) + [Expire(targets[|targets| - 1], now)]
  }

  lemma CheckTargetTimeoutsProgress(targets: seq<Target>, now: uint32)
    ensures Progress(targets, CheckTargetTimeouts(targets, now))
  {
  }

  /** After the sweep no target is still timed out: the sweep is idempotent. */
  lemma CheckTargetTimeoutsIdempotent(targets: seq<Target>, now: uint32)
    ensures CheckTargetTimeouts(CheckTargetTimeouts(targets, now), now) == CheckTargetTimeouts(targets, now)
  {
    var once := CheckTargetTimeouts(targets, now);
    var twice := CheckTargetTimeouts(once, now);
    forall i | 0 <= i < |targets|
      ensures twice[i] == once[i]
    {
      assert !TimedOut(once[i], now);
    }
  }

  // ---------------------------------------------------------------------
  // Completion

  /** A target that needs no more work. */
  predicate Done(t: Target) {
    t.state == Responded || t.state == NoResponse
  }

  predicate AllDone(targets: seq<Target>) {
    forall i :: 0 <= i < |targets| ==> Done(targets[i])
  }

  /** `AllTargetsDone`: true when every target has responded or timed out (so also for an empty table). */
  method AllTargetsDone(targets: seq<Target>) returns (done: bool)
    ensures done <==> AllDone(targets)
  {
    var i := 0;
    while i < |targets|
      invariant i <= |targets|
      invariant forall j :: 0 <= j < i ==> Done(targets[j])
    {
      if targets[i].state != Responded && targets[i].state != NoResponse {
        return false;
      }
      i := i + 1;
    }
    return true;
  }

  /** A finished table stays finished under the sweep. */
  lemma DoneIsStable(targets: seq<Target>, now: uint32)
    requires AllDone(targets)
    ensures CheckTargetTimeouts(targets, now) == targets
    ensures FirstDue(targets, now).None?
  {
    var after := CheckTargetTimeouts(targets, now);
    forall i | 0 <= i < |targets|
      ensures after[i] == targets[i]
    {
      assert Done(targets[i]);
    }
  }

  // ---------------------------------------------------------------------
  // Responses

  datatype PacketType = QueryResponse | OtherPacket

  /**
   * A received packet as the parser sees it: its header (`None` if it is
   * too short to hold one) and its query data (`None` if they fail to parse).
   */
  datatype Packet = Packet(header: Option<PacketType>, data: Option<QueryData>)

  /** The callback invocation `callback(addr, data, ping_time)`. */
  datatype Callback = Callback(addr: Addr, data: QueryData, pingTime: uint32)

  /** The result of parsing a response: the table after, and the callback made, if any. */
  datatype Parsed = Parsed(targets: seq<Target>, callback: Option<Callback>)

  /** The response data a packet carries, if it is a well-formed query response. */
  function ResponseData(packet: Packet): (d: Option<QueryData>)
    ensures d.Some? <==> packet.header == Some(QueryResponse) && packet.data.Some?
    ensures d.Some? ==> d == packet.data
  {
    if packet.header == Some(QueryResponse) then packet.data else None
  }

  /** Record a response on target `i`, unless it has already responded. */
  function Respond(targets: seq<Target>, i: nat, addr: Addr, data: QueryData, now: uint32): (r: Parsed)
    requires i < |targets|
    ensures targets[i].state == Responded ==> r == Parsed(targets, None)
    ensures targets[i].state != Responded ==>
              var ping := Elapsed(now, targets[i].queryTime);
              && r.targets == targets[i := targets[i].(state := Responded, data := Some(data), pingTime := ping)]
              && r.callback == Some(Callback(addr, data, ping))
  {
    var t := targets[i];
    if t.state == Responded then Parsed(targets, None)
    else
      var ping := Elapsed(now, t.queryTime);
      Parsed(targets[i := t.(state := Responded, data := Some(data), pingTime := ping)], Some(Callback(addr, data, ping)))
  }

  /** The target a broadcast responder starts as: queried at the time of the broadcast. */
  function Discovered(addr: Addr, queryTime: uint32): (t: Target)
    ensures t.kind == Server && t.state == Queried && t.addr == addr && t.queryTime == queryTime
  {
    NewTarget(addr).(state := Queried, queryTime := queryTime)
  }

  /**
   * `NET_Query_ParseResponse` for a packet from `Peer(from)` received at
   * `now`. A packet that is not a well-formed query response is ignored. A
   * response from a known target is recorded on it; one from an unknown
   * address is recorded on a new target only while the broadcast target is
   * waiting for answers, and ignored otherwise.
   */
  function ParseResponse(targets: seq<Target>, from: nat, packet: Packet, now: uint32): (r: Parsed)
    ensures ResponseData(packet).None? ==> r == Parsed(targets, None)
    ensures ResponseData(packet).Some? && HasAddr(targets, Peer(from)) ==>
              r == Respond(targets, FindTarget(targets, Peer(from)).value, Peer(from), ResponseData(packet).value, now)
    ensures !HasAddr(targets, Peer(from)) && !BroadcastWaiting(targets) ==> r == Parsed(targets, None)
    ensures ResponseData(packet).Some? && !HasAddr(targets, Peer(from)) && BroadcastWaiting(targets) ==>
              var q := targets[FindTarget(targets, NoAddr).value].queryTime;
              var ping := Elapsed(now, q);
              var d := ResponseData(packet).value;
              && r.targets == targets + [Target(Server, Responded, Peer(from), Some(d), ping, q, 0)]
              && r.callback == Some(Callback(Peer(from), d, ping))
  {
    match ResponseData(packet)
    case None => Parsed(targets, None)
    case Some(d) =>
      var addr := Peer(from);
      var found := GetTargetForAddr(targets, addr, false);
      if found.index.Some? then Respond(targets, found.index.value, addr, d, now)
      else
        var broadcast := GetTargetForAddr(targets, NoAddr, false);
        if broadcast.index.None? || targets[broadcast.index.value].state != Queried then Parsed(targets, None)
        else
          var q := targets[broadcast.index.value].queryTime;
          var created := GetTargetForAddr(targets, addr, true);
          var i := created.index.value;
          Respond(created.targets[i := Discovered(addr, q)], i, addr, d, now)
  }

  /** The null-address target exists and has been queried. */
  predicate BroadcastWaiting(targets: seq<Target>) {
    var b := FindTarget(targets, NoAddr);
    b.Some? && targets[b.value].state == Queried
  }

  lemma ParseResponseProgress(targets: seq<Target>, from: nat, packet: Packet, now: uint32)
    ensures Progress(targets, ParseResponse(targets, from, packet, now).targets)
  {
  }

  lemma ParseResponseKeepsAddrsDistinct(targets: seq<Target>, from: nat, packet: Packet, now: uint32)
    requires DistinctAddrs(targets)
    ensures DistinctAddrs(ParseResponse(targets, from, packet, now).targets)
  {
    var after := ParseResponse(targets, from, packet, now).targets;
    if |after| > |targets| {
      assert !HasAddr(targets, Peer(from));
      assert after[|targets|].addr == Peer(from);
      forall i | 0 <= i < |targets|
        ensures after[i].addr != after[|targets|].addr
      {
        assert after[i] == targets[i];
      }
    }
  }

  /**
   * The callback fires exactly when a target enters `Responded`: it names
   * the sender, the sender's target has responded afterwards, and it had
   * not responded before (or did not exist).
   */
  lemma CallbackOnlyOnFirstResponse(targets: seq<Target>, from: nat, packet: Packet, now: uint32)
    requires DistinctAddrs(targets)
    ensures var r := ParseResponse(targets, from, packet, now);
            r.callback.Some? ==>
              && r.callback.value.addr == Peer(from)
              && HasAddr(r.targets, Peer(from))
              && r.targets[FindTarget(r.targets, Peer(from)).value].state == Responded
              && (HasAddr(targets, Peer(from)) ==> targets[FindTarget(targets, Peer(from)).value].state != Responded)
  {
    var r := ParseResponse(targets, from, packet, now);
    if r.callback.Some? {
      ParseResponseKeepsAddrsDistinct(targets, from, packet, now);
      var i := if HasAddr(targets, Peer(from)) then FindTarget(targets, Peer(from)).value else |targets|;
      assert r.targets[i].addr == Peer(from);
      assert r.targets[i].state == Responded;
      assert IsFirstWithAddr(r.targets, Peer(from), i);
    }
  }

  /** A second identical response changes nothing and fires no callback. */
  lemma ResponseIsRecordedOnce(targets: seq<Target>, from: nat, packet: Packet, now: uint32, later: uint32)
    requires DistinctAddrs(targets)
    ensures var first := ParseResponse(targets, from, packet, now);
            ParseResponse(first.targets, from, packet, later) == Parsed(first.targets, None)
  {
    var first := ParseResponse(targets, from, packet, now);
    if first.callback.Some? {
      CallbackOnlyOnFirstResponse(targets, from, packet, now);
    } else if HasAddr(targets, Peer(from)) {
      assert first.targets == targets;
    }
  }

  // ---------------------------------------------------------------------
  // Polling

  /** A packet taken off the socket, with the address it came from. */
  datatype Received = Received(from: nat, packet: Packet)

  /** The result of one poll: the table, the query sent, the callback made, and the return value. */
  datatype PollResult = PollResult(table: QueryTable, query: Option<Addr>, callback: Option<Callback>, more: bool)

  /**
   * `NET_Query_Poll`: time out targets, send at most one query, handle at
   * most one received packet, and report whether any target is still
   * pending. Each step reads the clock; the three readings are parameters.
   */
  method Poll(table: QueryTable, sweepTime: uint32, sendTime: uint32, received: Option<Received>, receiveTime: uint32)
    returns (r: PollResult)
    ensures r.more <==> !AllDone(r.table.targets)
    ensures Progress(table.targets, r.table.targets)
    ensures |r.table.targets| <= |table.targets| + 1
    ensures received.None? ==> |r.table.targets| == |table.targets| && r.callback.None?
    ensures DistinctAddrs(table.targets) ==> DistinctAddrs(r.table.targets)
    ensures var swept := table.(targets := CheckTargetTimeouts(table.targets, sweepTime));
            var sent := SendOneQuery(swept, sendTime);
            && r.query == sent.query
            && r.table.lastQueryTime == sent.table.lastQueryTime
  {
    var swept := table.(targets := CheckTargetTimeouts(table.targets, sweepTime));
    CheckTargetTimeoutsProgress(table.targets, sweepTime);
    var sent := SendOneQuery(swept, sendTime);
    SendOneQueryProgress(swept, sendTime);
    var parsed := Parsed(sent.table.targets, None);
    if received.Some? {
      parsed := ParseResponse(sent.table.targets, received.value.from, received.value.packet, receiveTime);
      ParseResponseProgress(sent.table.targets, received.value.from, received.value.packet, receiveTime);
      if DistinctAddrs(table.targets) {
        SweepAndSendKeepAddrsDistinct(table.targets, swept.targets, sent.table.targets);
        ParseResponseKeepsAddrsDistinct(sent.table.targets, received.value.from, received.value.packet, receiveTime);
      }
    } else if DistinctAddrs(table.targets) {
      SweepAndSendKeepAddrsDistinct(table.targets, swept.targets, sent.table.targets);
    }
    ProgressTransitive(table.targets, swept.targets, sent.table.targets);
    ProgressTransitive(table.targets, sent.table.targets, parsed.targets);
    var done := AllTargetsDone(parsed.targets);
    r := PollResult(sent.table.(targets := parsed.targets), sent.query, parsed.callback, !done);
  }

  /** Steps that keep every address in place and add no target keep the addresses distinct. */
  lemma SweepAndSendKeepAddrsDistinct(a: seq<Target>, b: seq<Target>, c: seq<Target>)
    requires DistinctAddrs(a)
    requires Progress(a, b) && |b| == |a|
    requires Progress(b, c) && |c| == |b|
    ensures DistinctAddrs(c)
  {
  }

  // ---------------------------------------------------------------------
  // Starting a query

  /** `NET_Query_Init`: an empty table. The last query time is not reset. */
  function Init(table: QueryTable): (r: QueryTable)
    ensures r.targets == [] && r.lastQueryTime == table.lastQueryTime
  {
    QueryTable([], table.lastQueryTime)
  }

  /** `NET_StartLANQuery`: a fresh table holding one broadcast target, not yet queried. */
  function StartLANQuery(table: QueryTable): (r: QueryTable)
    ensures |r.targets| == 1 && r.lastQueryTime == table.lastQueryTime
    ensures r.targets[0].kind == Broadcast && r.targets[0].state == Queued && r.targets[0].addr == NoAddr
    ensures r.targets[0].attempts == 0
  {
    var empty := Init(table);
    var created := GetTargetForAddr(empty.targets, NoAddr, true);
    QueryTable(created.targets[0 := created.targets[0].(kind := Broadcast)], empty.lastQueryTime)
  }

  // ---------------------------------------------------------------------
  // Responders

  /** A server that has answered; the broadcast target never counts. */
  predicate IsResponder(t: Target) {
    t.kind == Server && t.state == Responded
  }

  /** Reference count of responders. */
  function CountResponders(targets: seq<Target>): nat
    decreases |targets|
  {
    if |targets| == 0 then 0
    else CountResponders(targets[..|targets| - 1]) + (if IsResponder(targets[|targets| - 1]) then 1 else 0)
  }

  /** `GetNumResponses`: the number of responders. */
  method GetNumResponses(targets: seq<Target>) returns (n: int)
    ensures n == CountResponders(targets)
  {
    n := 0;
    var i := 0;
    while i < |targets|
      invariant i <= |targets|
      invariant n == CountResponders(targets[..i])
    {
      assert targets[..i + 1][..i] == targets[..i];
      if targets[i].kind == Server && targets[i].state == Responded {
        n := n + 1;
      }
      i := i + 1;
    }
    assert targets[..|targets|] == targets;
  }

  /** There is no responder exactly when the count is zero. */
  lemma {:induction false} NoRespondersIff(targets: seq<Target>)
    ensures CountResponders(targets) == 0 <==> forall i :: 0 <= i < |targets| ==> !IsResponder(targets[i])
    decreases |targets|
  {
    if |targets| > 0 {
      var n := |targets| - 1;
      NoRespondersIff(targets[..n]);
      if CountResponders(targets) == 0 {
        forall i | 0 <= i < |targets|
          ensures !IsResponder(targets[i])
        {
          if i < n {
            assert targets[i] == targets[..n][i];
          }
        }
      } else {
        if !IsResponder(targets[n]) {
          var i :| 0 <= i < n && IsResponder(targets[..n][i]);
          assert targets[i] == targets[..n][i];
        }
      }
    }
  }

  /** `FindFirstResponder`: the lowest-index responder, or `None` when nobody has responded. */
  method FindFirstResponder(targets: seq<Target>) returns (r: Option<nat>)
    ensures r.Some? ==> r.value < |targets| && IsResponder(targets[r.value])
    ensures r.Some? ==> forall j :: 0 <= j < r.value ==> !IsResponder(targets[j])
    ensures r.None? <==> CountResponders(targets) == 0
  {
    NoRespondersIff(targets);
    var i := 0;
    while i < |targets|
      invariant i <= |targets|
      invariant forall j :: 0 <= j < i ==> !IsResponder(targets[j])
    {
      if targets[i].kind == Server && targets[i].state == Responded {
        return Some(i);
      }
      i := i + 1;
    }
    return None;
  }

  /** Responders are never lost: the count never decreases as the table progresses. */
  lemma {:induction false} RespondersNeverDecrease(before: seq<Target>, after: seq<Target>)
    requires Progress(before, after)
    ensures CountResponders(before) <= CountResponders(after)
    decreases |after|
  {
    if |after| > |before| {
      var n := |after| - 1;
      assert Progress(before, after[..n]);
      RespondersNeverDecrease(before, after[..n]);
    } else if |before| > 0 {
      var n := |before| - 1;
      assert Progress(before[..n], after[..n]);
      RespondersNeverDecrease(before[..n], after[..n]);
    }
  }

  // ---------------------------------------------------------------------
  // A LAN search, start to finish

  /**
   * A LAN search: the broadcast goes out on the first poll; a server that
   * answers it gets a target of its own, is reported with its round-trip
   * time measured from the broadcast, and is the first responder.
   */
  lemma LANSearchFindsResponder(table: QueryTable, sendTime: uint32, from: nat, d: QueryData, receiveTime: uint32)
    requires Elapsed(sendTime, table.lastQueryTime) >= QUERY_INTERVAL_MS
    ensures var start := StartLANQuery(table);
            var sent := SendOneQuery(start, sendTime);
            var parsed := ParseResponse(sent.table.targets, from, Packet(Some(QueryResponse), Some(d)), receiveTime);
            && sent.query == Some(NoAddr)
            && |parsed.targets| == 2
            && parsed.targets[1] == Target(Server, Responded, Peer(from), Some(d), Elapsed(receiveTime, sendTime), sendTime, 0)
            && parsed.callback == Some(Callback(Peer(from), d, Elapsed(receiveTime, sendTime)))
            && CountResponders(parsed.targets) == 1
  {
    var start := StartLANQuery(table);
    assert IsFirstDue(start.targets, sendTime, 0);
    var sent := SendOneQuery(start, sendTime);
    var ts := sent.table.targets;
    assert ts[0].addr == NoAddr && ts[0].state == Queried && ts[0].queryTime == sendTime;
    assert IsFirstWithAddr(ts, NoAddr, 0);
    assert !HasAddr(ts, Peer(from));
    var parsed := ParseResponse(ts, from, Packet(Some(QueryResponse), Some(d)), receiveTime);
    var pre := parsed.targets[..1];
    assert pre[..0] == [];
    assert !IsResponder(pre[0]);
    assert CountResponders(pre) == 0;
    assert IsResponder(parsed.targets[1]);
  }
}
