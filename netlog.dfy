/** ProcessNetlogEvent and its handlers: DNS transactions by netlog id, byte counters per
    socket and per SSL socket with running totals, and the total DNS time. */
module Netlog {
  import opened Wrappers
  import opened Events
  import opened Dicts

  /** `self.netlog['dns'][id]`; times in milliseconds from the trace start. */
  datatype DnsEntry = DnsEntry(hostname: Option<string>, dnsStart: Option<real>, dnsEnd: Option<real>)

  /** `self.netlog['sockets'][id]` (or `['ssl_sockets'][id]`). */
  datatype SocketCount = SocketCount(bytesIn: int, bytesOut: int)

  type DnsTable = Dict<string, DnsEntry>
  type SocketTable = Dict<string, SocketCount>

  function In(c: SocketCount): int { c.bytesIn }
  function Out(c: SocketCount): int { c.bytesOut }

  /** The sum of a counter over a socket table; a table not yet created sums to 0. */
  function Total(t: Option<SocketTable>, f: SocketCount -> int): int
    requires t.Some? ==> Valid(t.value)
  {
    if t.None? then 0 else SumOver(t.value.keys, t.value.vals, f)
  }

  /** The guard of ProcessNetlogEvent: args, an id and a source type. */
  predicate Handled(ev: TraceEvent) {
    ev.args.Some? && ev.id.Some? && ev.args.value.sourceType.Some?
  }

  predicate ToDns(ev: TraceEvent) {
    Handled(ev) && ev.name == "DNS_TRANSACTION"
  }

  predicate ToSocket(ev: TraceEvent) {
    Handled(ev) && ev.args.value.sourceType == Some("SOCKET")
  }

  /** `args.params.byte_count`, when present. */
  function ByteCount(ev: TraceEvent): Option<int> {
    if ev.args.Some? && ev.args.value.params.Some? then ev.args.value.params.value.byteCount else None
  }

  /** The bytes an event adds to its socket's counters: a received or sent event with a byte
      count adds to one of them, any other socket event adds nothing. */
  function Increment(ev: TraceEvent, ssl: bool): (r: (int, int))
    ensures ByteCount(ev).None? ==> r == (0, 0)
    ensures r.0 != 0 ==> ev.name == (if ssl then "SSL_SOCKET_BYTES_RECEIVED" else "SOCKET_BYTES_RECEIVED")
    ensures r.1 != 0 ==> ev.name == (if ssl then "SSL_SOCKET_BYTES_SENT" else "SOCKET_BYTES_SENT")
  {
    var received := if ssl then "SSL_SOCKET_BYTES_RECEIVED" else "SOCKET_BYTES_RECEIVED";
    var sent := if ssl then "SSL_SOCKET_BYTES_SENT" else "SOCKET_BYTES_SENT";
    if ByteCount(ev).None? then (0, 0)
    else if ev.name == received then (ByteCount(ev).value, 0)
    else if ev.name == sent then (0, ByteCount(ev).value)
    else (0, 0)
  }

  /** The socket table after one socket event: the table and the socket's entry are created
      on first sight, and the increments go to that socket only. Each total over the table
      grows by exactly the increment. */
  function SocketUpdate(t: Option<SocketTable>, id: string, inc: (int, int)): (r: SocketTable)
    requires t.Some? ==> Valid(t.value)
    ensures Valid(r) && id in r.vals
    ensures Total(Some(r), In) == Total(t, In) + inc.0
    ensures Total(Some(r), Out) == Total(t, Out) + inc.1
    ensures t.Some? ==> forall k :: k in t.value.vals && k != id ==> k in r.vals && r.vals[k] == t.value.vals[k]
  {
    var d := if t.None? then Empty() else t.value;
    var d1 := if id in d.vals then d else Set(d, id, SocketCount(0, 0));
    var c := d1.vals[id];
    var c' := SocketCount(c.bytesIn + inc.0, c.bytesOut + inc.1);
    SocketSums(d, id, c');
    Set(d1, id, c')
  }

  /** How the sums change when a socket's counters become `c`, creating it if need be. */
  lemma SocketSums(d: SocketTable, id: string, c: SocketCount)
    requires Valid(d)
    ensures var d1 := if id in d.vals then d else Set(d, id, SocketCount(0, 0));
      var old_ := if id in d.vals then d.vals[id] else SocketCount(0, 0);
      && SumOver(Set(d1, id, c).keys, Set(d1, id, c).vals, In) == SumOver(d.keys, d.vals, In) - old_.bytesIn + c.bytesIn
      && SumOver(Set(d1, id, c).keys, Set(d1, id, c).vals, Out) == SumOver(d.keys, d.vals, Out) - old_.bytesOut + c.bytesOut
  {
    var d1 := if id in d.vals then d else Set(d, id, SocketCount(0, 0));
    if id !in d.vals {
      SumOverAppend(d.keys, d.vals, In, id, SocketCount(0, 0));
      SumOverAppend(d.keys, d.vals, Out, id, SocketCount(0, 0));
    }
    SumOverUpdate(d1.keys, d1.vals, In, id, c);
    SumOverUpdate(d1.keys, d1.vals, Out, id, c);
  }

  /** One DNS_TRANSACTION event: the id's entry is created on first sight; with params, a
      begin records the host name and start, an end records the end, or removes the entry
      when the transaction failed. A begin without a host name is an error, and so is a
      time to convert before the trace start is known (`start` is None). */
  function DnsStep(dns: Option<DnsTable>, ev: TraceEvent, start: Option<int>): (r: Result<DnsTable>)
    requires ToDns(ev)
    requires dns.Some? ==> Valid(dns.value)
    ensures r.Ok? ==> Valid(r.value)
    ensures r.Ok? && dns.Some? ==> forall k :: k in dns.value.vals && k != ev.id.value ==>
      k in r.value.vals && r.value.vals[k] == dns.value.vals[k]
    ensures r.Ok? ==> forall k :: k in r.value.vals && k != ev.id.value ==>
      dns.Some? && k in dns.value.vals
    ensures (r.Ok? && ev.ph == NestableEnd && ev.args.value.params.Some?
             && ev.args.value.params.value.netError.Some?) ==> ev.id.value !in r.value.vals
    ensures (r.Ok? && ev.ph == NestableEnd && ev.args.value.params.Some?
             && ev.args.value.params.value.netError.None?) ==>
      start.Some? && ev.id.value in r.value.vals && r.value.vals[ev.id.value].dnsEnd == Some(Ms(ev.ts, start.value))
    ensures (r.Ok? && ev.ph == NestableBegin && ev.args.value.params.Some?) ==>
      start.Some? && ev.id.value in r.value.vals
      && r.value.vals[ev.id.value].hostname == ev.args.value.params.value.hostname
      && r.value.vals[ev.id.value].dnsStart == Some(Ms(ev.ts, start.value))
    ensures r.Err? <==>
      || (ev.ph == NestableBegin && ev.args.value.params.Some?
          && (ev.args.value.params.value.hostname.None? || start.None?))
      || (ev.ph == NestableEnd && ev.args.value.params.Some?
          && ev.args.value.params.value.netError.None? && start.None?)
  {
    var d := if dns.None? then Empty() else dns.value;
    var id := ev.id.value;
    var d1 := if id in d.vals then d else Set(d, id, DnsEntry(None, None, None));
    var e := d1.vals[id];
    var params := ev.args.value.params;
    if params.None? then Ok(d1)
    else if ev.ph == NestableBegin then
      if params.value.hostname.None? then Err("KeyError: hostname")
      else if start.None? then Err("TypeError: start_time is None")
      else Ok(Set(d1, id, e.(hostname := params.value.hostname, dnsStart := Some(Ms(ev.ts, start.value)))))
    else if ev.ph == NestableEnd then
      if params.value.netError.None? then
        if start.None? then Err("TypeError: start_time is None")
        else Ok(Set(d1, id, e.(dnsEnd := Some(Ms(ev.ts, start.value)))))
      else Ok(Remove(d1, id))
    else Ok(d1)
  }

  /** The time of one transaction, when both ends are known. */
  function Duration(e: DnsEntry): real {
    if e.dnsStart.Some? && e.dnsEnd.Some? then e.dnsEnd.value - e.dnsStart.value else 0.0
  }

  /** TotalDnsTime's sum over the transactions with both ends. */
  function DnsSum(keys: seq<string>, vals: map<string, DnsEntry>): real
    requires forall k :: k in keys ==> k in vals
  {
    if keys == [] then 0.0 else Duration(vals[keys[0]]) + DnsSum(keys[1..], vals)
  }

  /** No transaction ends before it starts, so the total is not negative. */
  lemma {:induction false} DnsSumNonNegative(keys: seq<string>, vals: map<string, DnsEntry>)
    requires forall k :: k in keys ==> k in vals
    requires forall k :: k in keys ==> Duration(vals[k]) >= 0.0
    ensures DnsSum(keys, vals) >= 0.0
  {
    if keys != [] {
      DnsSumNonNegative(keys[1..], vals);
    }
  }

  /** Transactions that all have both ends and are all one length `len` sum to the count
      times `len`. */
  lemma {:induction false} DnsSumUniform(keys: seq<string>, vals: map<string, DnsEntry>, len: real)
    requires forall k :: k in keys ==> k in vals
    requires forall k :: k in keys ==> Duration(vals[k]) == len
    ensures DnsSum(keys, vals) == |keys| as real * len
  {
    if keys != [] {
      DnsSumUniform(keys[1..], vals, len);
    }
  }

  /** The DNS table after the DNS transactions among `events`, or the first error. Events
      that are not handled DNS transactions leave the table alone; no table exists until
      the first one. */
  function DnsFold(dns: Option<DnsTable>, events: seq<TraceEvent>, start: Option<int>): (r: Result<Option<DnsTable>>)
    requires dns.Some? ==> Valid(dns.value)
    ensures r.Ok? && r.value.Some? ==> Valid(r.value.value)
    ensures r.Ok? ==> (r.value.None? <==> dns.None? && forall ev :: ev in events ==> !ToDns(ev))
  {
    if events == [] then Ok(dns)
    else
      var n := |events| - 1;
      assert forall ev :: ev in events <==> ev in events[..n] || ev == events[n];
      match DnsFold(dns, events[..n], start)
      case Err(e) => Err(e)
      case Ok(t) =>
        if !ToDns(events[n]) then Ok(t)
        else
          match DnsStep(t, events[n], start)
          case Err(e) => Err(e)
          case Ok(t') => Ok(Some(t'))
  }

  /** An error among the first `n` events is an error of the whole DNS fold. */
  lemma {:induction false} DnsFoldErrStays(dns: Option<DnsTable>, events: seq<TraceEvent>, n: nat, start: Option<int>)
    requires dns.Some? ==> Valid(dns.value)
    requires n <= |events|
    requires DnsFold(dns, events[..n], start).Err?
    ensures DnsFold(dns, events, start).Err?
    decreases |events| - n
  {
    if n < |events| {
      assert events[..n + 1][..n] == events[..n];
      DnsFoldErrStays(dns, events, n + 1, start);
    } else {
      assert events[..n] == events;
    }
  }

  /** The DNS fold over one more event. */
  lemma DnsFoldNext(dns: Option<DnsTable>, events: seq<TraceEvent>, i: nat, start: Option<int>, t: Option<DnsTable>)
    requires dns.Some? ==> Valid(dns.value)
    requires i < |events| && DnsFold(dns, events[..i], start) == Ok(t)
    ensures t.Some? ==> Valid(t.value)
    ensures !ToDns(events[i]) ==> DnsFold(dns, events[..i + 1], start) == Ok(t)
    ensures ToDns(events[i]) && DnsStep(t, events[i], start).Ok? ==>
      DnsFold(dns, events[..i + 1], start) == Ok(Some(DnsStep(t, events[i], start).value))
    ensures ToDns(events[i]) && DnsStep(t, events[i], start).Err? ==>
      DnsFold(dns, events[..i + 1], start).Err?
  {
    assert events[..i + 1][..i] == events[..i];
  }

  /** The events ProcessNetlogEvent gives to the SSL socket handler (`ssl`) or to the plain
      one. */
  predicate ToSocketOf(ev: TraceEvent, ssl: bool) {
    ToSocket(ev) && ev.id.Some? && StartsWith(ev.name, "SSL") == ssl
  }

  /** The socket table after the socket events of one kind among `events`. No table exists
      until the first such event. */
  function SocketFold(t: Option<SocketTable>, events: seq<TraceEvent>, ssl: bool): (r: Option<SocketTable>)
    requires t.Some? ==> Valid(t.value)
    ensures r.Some? ==> Valid(r.value)
    ensures r.None? <==> t.None? && forall ev :: ev in events ==> !ToSocketOf(ev, ssl)
  {
    if events == [] then t
    else
      var n := |events| - 1;
      assert forall ev :: ev in events <==> ev in events[..n] || ev == events[n];
      var prev := SocketFold(t, events[..n], ssl);
      if ToSocketOf(events[n], ssl) then Some(SocketUpdate(prev, events[n].id.value, Increment(events[n], ssl)))
      else prev
  }

  /** The socket fold over one more event. */
  lemma SocketFoldNext(t: Option<SocketTable>, events: seq<TraceEvent>, i: nat, ssl: bool)
    requires t.Some? ==> Valid(t.value)
    requires i < |events|
    ensures var prev := SocketFold(t, events[..i], ssl);
      SocketFold(t, events[..i + 1], ssl) ==
        if ToSocketOf(events[i], ssl) then Some(SocketUpdate(prev, events[i].id.value, Increment(events[i], ssl)))
        else prev
  {
    assert events[..i + 1][..i] == events[..i];
  }

  /** `self.netlog`. */
  class NetlogState {
    var dns: Option<DnsTable>
    var sockets: Option<SocketTable>
    var sslSockets: Option<SocketTable>
    var bytesIn: int
    var bytesOut: int
    var sslBytesIn: int
    var sslBytesOut: int
    var dnsTime: Option<real>

    /** The running totals are the sums over the per-socket counters. */
    ghost predicate Valid()
      reads this
    {
      && (dns.Some? ==> Dicts.Valid(dns.value))
      && (sockets.Some? ==> Dicts.Valid(sockets.value))
      && (sslSockets.Some? ==> Dicts.Valid(sslSockets.value))
      && bytesIn == Total(sockets, In) && bytesOut == Total(sockets, Out)
      && sslBytesIn == Total(sslSockets, In) && sslBytesOut == Total(sslSockets, Out)
    }

    constructor ()
      ensures Valid()
      ensures dns.None? && sockets.None? && sslSockets.None? && dnsTime.None?
      ensures bytesIn == 0 && bytesOut == 0 && sslBytesIn == 0 && sslBytesOut == 0
    {
      dns, sockets, sslSockets, dnsTime := None, None, None, None;
      bytesIn, bytesOut, sslBytesIn, sslBytesOut := 0, 0, 0, 0;
    }

    /** ProcessNetlogDnsEvent. */
    method ProcessNetlogDnsEvent(ev: TraceEvent, start: Option<int>) returns (failure: Option<string>)
      requires Valid() && ToDns(ev)
      modifies this
      ensures Valid()
      ensures failure.None? <==> DnsStep(old(dns), ev, start).Ok?
      ensures failure.None? ==> dns == Some(DnsStep(old(dns), ev, start).value)
      ensures sockets == old(sockets) && sslSockets == old(sslSockets) && dnsTime == old(dnsTime)
    {
      var r := DnsStep(dns, ev, start);
      if r.Err? {
        return Some(r.error);
      }
      dns := Some(r.value);
      failure := None;
    }

    /** ProcessNetlogSocketEvent. */
    method ProcessNetlogSocketEvent(ev: TraceEvent)
      requires Valid() && ev.id.Some?
      modifies this
      ensures Valid()
      ensures sockets == Some(SocketUpdate(old(sockets), ev.id.value, Increment(ev, false)))
      ensures bytesIn == old(bytesIn) + Increment(ev, false).0
      ensures bytesOut == old(bytesOut) + Increment(ev, false).1
      ensures sslSockets == old(sslSockets) && sslBytesIn == old(sslBytesIn) && sslBytesOut == old(sslBytesOut)
      ensures dns == old(dns) && dnsTime == old(dnsTime)
    {
      var inc := Increment(ev, false);
      var t := SocketUpdate(sockets, ev.id.value, inc);
      sockets, bytesIn, bytesOut := Some(t), bytesIn + inc.0, bytesOut + inc.1;
    }

    /** ProcessNetlogSslSocketEvent. */
    method ProcessNetlogSslSocketEvent(ev: TraceEvent)
      requires Valid() && ev.id.Some?
      modifies this
      ensures Valid()
      ensures sslSockets == Some(SocketUpdate(old(sslSockets), ev.id.value, Increment(ev, true)))
      ensures sslBytesIn == old(sslBytesIn) + Increment(ev, true).0
      ensures sslBytesOut == old(sslBytesOut) + Increment(ev, true).1
      ensures sockets == old(sockets) && bytesIn == old(bytesIn) && bytesOut == old(bytesOut)
      ensures dns == old(dns) && dnsTime == old(dnsTime)
    {
      var inc := Increment(ev, true);
      var t := SocketUpdate(sslSockets, ev.id.value, inc);
      sslSockets, sslBytesIn, sslBytesOut := Some(t), sslBytesIn + inc.0, sslBytesOut + inc.1;
    }

    /** TotalDnsTime: the sum of the complete transactions' times, or -1 (and an empty
        table) when no DNS event was seen. */
    method TotalDnsTime()
      requires Valid()
      modifies this
      ensures Valid()
      ensures old(dns).None? ==> dns == Some(Empty()) && dnsTime == Some(-1.0)
      ensures old(dns).Some? ==>
        dns == old(dns) && dnsTime == Some(DnsSum(dns.value.keys, dns.value.vals))
      ensures sockets == old(sockets) && sslSockets == old(sslSockets)
    {
      if dns.Some? {
        var total := 0.0;
        var keys := dns.value.keys;
        var vals := dns.value.vals;
        var i := |keys|;
        while i > 0
          invariant 0 <= i <= |keys|
          invariant total == DnsSum(keys[i..], vals)
        {
          i := i - 1;
          assert keys[i..][1..] == keys[i + 1..];
          total := Duration(vals[keys[i]]) + total;
        }
        dnsTime := Some(total);
      } else {
        dns := Some(Empty());
        dnsTime := Some(-1.0);
      }
    }

    /** One turn of ProcessNetlogEvent's loop: a handled DNS transaction goes to the DNS
        handler and, independently, a handled socket event to the socket or SSL socket
        handler, chosen by the `SSL` prefix of its name. */
    method RouteNetlogEvent(ev: TraceEvent, start: Option<int>) returns (failure: Option<string>)
      requires Valid()
      modifies this
      ensures Valid()
      ensures failure.None? <==> !ToDns(ev) || DnsStep(old(dns), ev, start).Ok?
      ensures failure.None? ==>
        dns == if ToDns(ev) then Some(DnsStep(old(dns), ev, start).value) else old(dns)
      ensures failure.None? ==>
        && sockets == (if ToSocketOf(ev, false)
                       then Some(SocketUpdate(old(sockets), ev.id.value, Increment(ev, false)))
                       else old(sockets))
        && sslSockets == (if ToSocketOf(ev, true)
                          then Some(SocketUpdate(old(sslSockets), ev.id.value, Increment(ev, true)))
                          else old(sslSockets))
    {
      failure := None;
      if Handled(ev) {
        if ev.name == "DNS_TRANSACTION" {
          failure := ProcessNetlogDnsEvent(ev, start);
          if failure.Some? {
            return;
          }
        }
        if ev.args.value.sourceType == Some("SOCKET") {
          if StartsWith(ev.name, "SSL") {
            ProcessNetlogSslSocketEvent(ev);
          } else {
            ProcessNetlogSocketEvent(ev);
          }
        }
      }
    }

    /** ProcessNetlogEvent: each handled event goes to the DNS handler when it is a DNS
        transaction and, independently, to the socket or SSL socket handler when its
        source is a socket; then the DNS time is totalled. */
    method ProcessNetlogEvent(events: seq<TraceEvent>, start: Option<int>) returns (failure: Option<string>)
      requires Valid()
      modifies this
      ensures Valid()
      ensures failure.None? <==> DnsFold(old(dns), events, start).Ok?
      ensures failure.None? ==> dns.Some? && dnsTime.Some?
      ensures failure.None? ==>
        var folded := DnsFold(old(dns), events, start).value;
        && dns == Some(if folded.Some? then folded.value else Empty())
        && dnsTime == Some(if folded.None? then -1.0 else DnsSum(folded.value.keys, folded.value.vals))
      ensures failure.None? ==>
        && sockets == SocketFold(old(sockets), events, false)
        && sslSockets == SocketFold(old(sslSockets), events, true)
    {
      ghost var dns0, sockets0, ssl0 := dns, sockets, sslSockets;
      for i := 0 to |events|
        invariant Valid()
        invariant DnsFold(dns0, events[..i], start) == Ok(dns)
        invariant sockets == SocketFold(sockets0, events[..i], false)
        invariant sslSockets == SocketFold(ssl0, events[..i], true)
      {
        var ev := events[i];
        DnsFoldNext(dns0, events, i, start, dns);
        SocketFoldNext(sockets0, events, i, false);
        SocketFoldNext(ssl0, events, i, true);
        failure := RouteNetlogEvent(ev, start);
        if failure.Some? {
          DnsFoldErrStays(dns0, events, i + 1, start);
          assert events[..|events|] == events;
          return;
        }
      }
      assert events[..|events|] == events;
      TotalDnsTime();
      failure := None;
    }
  }
}
