/** Connectivity preflight: every distinct endpoint is probed once, and plans whose endpoint is not reachable are skipped. */
module Preflight {
  import opened Basics
  import opened Verdict

  datatype Status =
    | OK | UNREACHABLE | TIMEOUT | CONNECTION_REFUSED | PORT_BLOCKED | IP_EMPTY | HOST_RESOLVE_FAILED | NO_ANSWER

  datatype Side = BmcSide | SshSide

  datatype Device = Device(name: string, bmcIp: string, inbandIp: string, enabled: bool)

  /** `urlHost` is the host part of a URL; `connect` is what a TCP connection to a host and port comes to. */
  datatype Net = Net(urlHost: string -> string, connect: (string, Side) -> Status)

  function RawHost(d: Device, side: Side): string {
    if side.BmcSide? then d.bmcIp else d.inbandIp
  }

  predicate IsUrl(s: string) {
    StartsWith(s, "http://") || StartsWith(s, "https://")
  }

  function Resolve(urlHost: string -> string, raw: string): string {
    var s := Strip(raw);
    if s == "" || Lower(s) in {"是", "否", "启用", "禁用", "yes", "no", "true", "false", "1", "0"} then ""
    else if IsUrl(s) then urlHost(s)
    else if StartsWith(s, "/") then ""
    else s
  }

  /** A probe resolves whatever it is given before it connects. */
  function Probe(net: Net, side: Side, raw: string): Status {
    var host := Resolve(net.urlHost, raw);
    if host == "" then IP_EMPTY else net.connect(host, side)
  }

  function KeyOf(side: Side, host: string): string {
    (if side.BmcSide? then "BMC|" else "SSH|")
    + (if host == "" then "IP_EMPTY" else host)
    + (if side.BmcSide? then "|443" else "|22")
  }

  predicate EmptyKey(key: string) {
    Contains(key, "IP_EMPTY")
  }

  function KeyFor(net: Net, side: Side, d: Device): string {
    KeyOf(side, Resolve(net.urlHost, RawHost(d, side)))
  }

  /** What the shared probe of an endpoint comes to. */
  function EndpointStatus(net: Net, side: Side, host: string): Status {
    if EmptyKey(KeyOf(side, host)) then IP_EMPTY else Probe(net, side, host)
  }

  function SharedStatus(net: Net, side: Side, raw: string): Status {
    EndpointStatus(net, side, Resolve(net.urlHost, raw))
  }

  lemma BlankHostHasEmptyKey(side: Side)
    ensures EmptyKey(KeyOf(side, ""))
  {
    assert OccursAt(KeyOf(side, ""), "IP_EMPTY", 4);
  }

  /** Keys tell hosts apart, but for the blank one and the one spelled like its stand-in. */
  lemma KeysTellHostsApart(side: Side, g: string, h: string)
    requires KeyOf(side, g) == KeyOf(side, h) && !EmptyKey(KeyOf(side, g))
    ensures g == h
  {
    BlankHostHasEmptyKey(side);
    var k := if side.BmcSide? then 4 else 3;
    assert KeyOf(side, g)[4..|KeyOf(side, g)| - k] == g;
    assert KeyOf(side, h)[4..|KeyOf(side, h)| - k] == h;
  }

  lemma SidesTellKeysApart(g: string, h: string)
    ensures KeyOf(BmcSide, g) != KeyOf(SshSide, h)
  {
    assert KeyOf(BmcSide, g)[0] != KeyOf(SshSide, h)[0];
  }

  // ----- what becomes of an address -----

  /** The words of a column that holds flags. */
  predicate IsFlag(s: string) {
    Lower(s) in {"是", "否", "启用", "禁用", "yes", "no", "true", "false", "1", "0"}
  }

  predicate IsTrimmed(s: string) {
    s != "" && !IsSpace(s[0]) && !IsSpace(s[|s| - 1])
  }

  /** An address that is taken as it is. */
  predicate IsPlain(s: string) {
    && IsTrimmed(s) && !IsFlag(s) && s[0] != '/' && !("http://" <= s) && !("https://" <= s) && !Contains(s, "IP_EMPTY")
  }

  lemma TrimmedStays(s: string)
    requires IsTrimmed(s)
    ensures Strip(s) == s
  {
    assert StripLeft(s) == s && StripRight(s) == s;
  }

  lemma PlainResolves(urlHost: string -> string, s: string)
    requires IsPlain(s)
    ensures Resolve(urlHost, s) == s
  {
    TrimmedStays(s);
    assert "/"[0] == '/';
  }

  /** The stand-in for a blank host shows in a key only if it shows in the host. */
  lemma EmptyKeyIff(side: Side, host: string)
    requires host != ""
    ensures EmptyKey(KeyOf(side, host)) <==> Contains(host, "IP_EMPTY")
  {
    var key := KeyOf(side, host);
    if Contains(host, "IP_EMPTY") {
      var i :| 0 <= i <= |host| && OccursAt(host, "IP_EMPTY", i);
      forall m | 0 <= m < 8 ensures key[4 + i + m] == "IP_EMPTY"[m] {
        assert host[i..i + 8][m] == host[i + m];
      }
      assert key[4 + i..4 + i + 8] == "IP_EMPTY";
      assert OccursAt(key, "IP_EMPTY", 4 + i);
    }
    if EmptyKey(key) {
      var i :| 0 <= i <= |key| && OccursAt(key, "IP_EMPTY", i);
      StandInIsInHost(side, host, i);
    }
  }

  lemma StandInIsInHost(side: Side, host: string, i: nat)
    requires host != "" && OccursAt(KeyOf(side, host), "IP_EMPTY", i)
    ensures Contains(host, "IP_EMPTY")
  {
    var key, word := KeyOf(side, host), "IP_EMPTY";
    assert forall m :: 0 <= m < 8 ==> key[i + m] == key[i..i + 8][m] == word[m];
    assert key[3] == '|' && key[4 + |host|] == '|';
    assert word[0] == 'I' && word[1] == 'P' && word[2] == '_' && word[3] == 'E' && word[4] == 'M' && word[5] == 'P'
        && word[6] == 'T' && word[7] == 'Y';
    forall k | i <= k < i + 8 ensures key[k] != '|' {
      assert key[k] == key[i..i + 8][k - i] == word[k - i];
    }
    assert !(i <= 3 < i + 8) && !(i <= 4 + |host| < i + 8);
    forall m | 0 <= m < 8 ensures host[i - 4 + m] == word[m] {
      assert key[i + m] == host[i + m - 4];
    }
    assert host[i - 4..i - 4 + 8] == word;
    assert OccursAt(host, word, i - 4);
  }

  /** A plain address is what is connected to. */
  lemma PlainIsProbed(net: Net, side: Side, raw: string)
    requires IsPlain(raw)
    ensures SharedStatus(net, side, raw) == net.connect(raw, side) && Probe(net, side, raw) == net.connect(raw, side)
    ensures KeyOf(side, Resolve(net.urlHost, raw)) ==
      if side == BmcSide then "BMC|" + raw + "|443" else "SSH|" + raw + "|22"
  {
    PlainResolves(net.urlHost, raw);
    EmptyKeyIff(side, raw);
  }

  /** Blank fields, flags and paths count as no address, in a batch and alone. */
  lemma NoAddress(net: Net, side: Side, raw: string)
    requires Strip(raw) == "" || (IsTrimmed(raw) && (IsFlag(raw) || raw[0] == '/'))
    ensures SharedStatus(net, side, raw) == IP_EMPTY && Probe(net, side, raw) == IP_EMPTY
  {
    BlankHostHasEmptyKey(side);
    if Strip(raw) != "" {
      TrimmedStays(raw);
      assert "http://"[0] == 'h' && "https://"[0] == 'h';
    }
  }

  /** Of a URL, the host is connected to, if it is plain. */
  lemma UrlIsProbed(net: Net, side: Side, raw: string)
    requires IsTrimmed(raw) && ("http://" <= raw || "https://" <= raw)
    ensures Probe(net, side, raw) == if net.urlHost(raw) == "" then IP_EMPTY else net.connect(net.urlHost(raw), side)
    ensures IsPlain(net.urlHost(raw)) ==> SharedStatus(net, side, raw) == net.connect(net.urlHost(raw), side)
    ensures net.urlHost(raw) == "" ==> SharedStatus(net, side, raw) == IP_EMPTY
  {
    TrimmedStays(raw);
    BlankHostHasEmptyKey(side);
    UrlIsNoFlag(raw);
    if IsPlain(net.urlHost(raw)) {
      PlainResolves(net.urlHost, net.urlHost(raw));
      EmptyKeyIff(side, net.urlHost(raw));
    }
  }

  lemma UrlIsNoFlag(raw: string)
    requires "http://" <= raw || "https://" <= raw
    ensures !IsFlag(raw)
  {
    assert |Lower(raw)| >= 7 && Lower(raw)[0] == 'h';
  }

  // ----- sharing a probe against probing each device -----

  /** The host survives being resolved a second time and does not spell the stand-in for a blank host. */
  predicate Settled(urlHost: string -> string, side: Side, raw: string) {
    var host := Resolve(urlHost, raw);
    host == "" || (!EmptyKey(KeyOf(side, host)) && Resolve(urlHost, host) == host)
  }

  /** A connection attempt never reports a blank address. */
  ghost predicate Connects(connect: (string, Side) -> Status) {
    forall host, side :: connect(host, side) != IP_EMPTY
  }

  ghost predicate Agrees(urlHost: string -> string, connect: (string, Side) -> Status, side: Side, raw: string) {
    SharedStatus(Net(urlHost, connect), side, raw) == Probe(Net(urlHost, connect), side, raw)
  }

  /** The shared probe says what probing the device directly would say, on every network, exactly for settled hosts. */
  lemma SharedAgreesIff(urlHost: string -> string, side: Side, raw: string)
    ensures Settled(urlHost, side, raw) <==>
      forall connect | Connects(connect) :: Agrees(urlHost, connect, side, raw)
  {
    var host := Resolve(urlHost, raw);
    BlankHostHasEmptyKey(side);
    if !Settled(urlHost, side, raw) {
      var connect := (h: string, s: Side) => if h == host then OK else TIMEOUT;
      assert Connects(connect) && !Agrees(urlHost, connect, side, raw);
    }
  }

  /** A URL whose host looks like a flag: alone it is reachable, in a batch its address counts as blank. */
  lemma FlagLikeHostsDisagree(urlHost: string -> string, connect: (string, Side) -> Status)
    requires urlHost("https://1") == "1" && connect("1", BmcSide) == OK
    ensures Probe(Net(urlHost, connect), BmcSide, "https://1") == OK
    ensures SharedStatus(Net(urlHost, connect), BmcSide, "https://1") == IP_EMPTY
  {
    assert StripLeft("https://1") == "https://1" && StripRight("https://1") == "https://1" && Strip("https://1") == "https://1";
    assert StripLeft("1") == "1" && StripRight("1") == "1" && Strip("1") == "1";
    assert Lower("https://1")[0] == 'h' && |Lower("https://1")| == 9;
    assert Lower("1") == "1";
    assert Resolve(urlHost, "https://1") == "1";
    assert Resolve(urlHost, "1") == "";
  }

  // ----- probing a batch -----

  /** One endpoint: what to probe and which devices wait for the answer. */
  datatype Endpoint = Endpoint(key: string, side: Side, host: string, devices: seq<Device>)

  /** What a device learns; a side that is not probed keeps OK. */
  datatype Row = Row(bmc: Status, ssh: Status)

  function StatusOn(r: Row, side: Side): Status {
    if side.BmcSide? then r.bmc else r.ssh
  }

  /** The status of the side that is not meant. */
  function Other(r: Row, side: Side): Status {
    if side == BmcSide then r.ssh else r.bmc
  }

  function WithStatus(r: Row, side: Side, status: Status): Row {
    if side.BmcSide? then r.(bmc := status) else r.(ssh := status)
  }

  /** An endpoint of this network: its key is its host's, and its devices have that key. */
  ghost predicate EndpointOk(net: Net, e: Endpoint) {
    && e.key == KeyOf(e.side, e.host)
    && forall d :: d in e.devices ==> d.enabled && KeyFor(net, e.side, d) == e.key
  }

  ghost predicate EndpointsOk(net: Net, es: seq<Endpoint>) {
    && (forall i :: 0 <= i < |es| ==> EndpointOk(net, es[i]))
    && (forall i, j :: 0 <= i < j < |es| ==> es[i].key != es[j].key)
  }

  ghost predicate Listed(es: seq<Endpoint>, side: Side, d: Device) {
    exists i :: 0 <= i < |es| && es[i].side == side && d in es[i].devices
  }

  method AddDevice(net: Net, es: seq<Endpoint>, side: Side, d: Device) returns (r: seq<Endpoint>)
    requires EndpointsOk(net, es) && d.enabled
    ensures EndpointsOk(net, r) && Listed(r, side, d)
    ensures forall s, x :: Listed(r, s, x) <==> Listed(es, s, x) || (s == side && x == d)
    ensures forall i :: 0 <= i < |r| ==> r[i].devices != [] || (i < |es| && es[i].devices == [])
  {
    var host := Resolve(net.urlHost, RawHost(d, side));
    var key := KeyOf(side, host);
    var i := 0;
    while i < |es|
      invariant i <= |es|
      invariant forall j :: 0 <= j < i ==> es[j].key != key
    {
      if es[i].key == key {
        SidesTellKeysApart(host, es[i].host);
        SidesTellKeysApart(es[i].host, host);
        r := es[i := es[i].(devices := es[i].devices + [d])];
        assert d in r[i].devices;
        forall s, x ensures Listed(r, s, x) <==> Listed(es, s, x) || (s == side && x == d) {
          ListedAfterUpdate(es, i, d, s, x);
        }
        return;
      }
      i := i + 1;
    }
    var e := Endpoint(key, side, host, [d]);
    r := es + [e];
    assert r[|es|] == e;
    forall s, x ensures Listed(r, s, x) <==> Listed(es, s, x) || (s == side && x == d) {
      ListedAfterAppend(es, e, d, s, x);
    }
  }

  lemma ListedAfterUpdate(es: seq<Endpoint>, i: nat, d: Device, s: Side, x: Device)
    requires i < |es|
    ensures var r := es[i := es[i].(devices := es[i].devices + [d])];
      Listed(r, s, x) <==> Listed(es, s, x) || (s == es[i].side && x == d)
  {
    var r := es[i := es[i].(devices := es[i].devices + [d])];
    if Listed(es, s, x) {
      var j :| 0 <= j < |es| && es[j].side == s && x in es[j].devices;
      assert r[j].side == s && x in r[j].devices;
    }
    if s == es[i].side && x == d {
      assert r[i].side == s && x in r[i].devices;
    }
  }

  lemma ListedAfterAppend(es: seq<Endpoint>, e: Endpoint, d: Device, s: Side, x: Device)
    requires e.devices == [d]
    ensures Listed(es + [e], s, x) <==> Listed(es, s, x) || (s == e.side && x == d)
  {
    var r := es + [e];
    if Listed(es, s, x) {
      var j :| 0 <= j < |es| && es[j].side == s && x in es[j].devices;
      assert r[j].side == s && x in r[j].devices;
    }
    if s == e.side && x == d {
      assert r[|es|].side == s && x in r[|es|].devices;
    }
  }

  /** An enabled device joins its endpoint on each probed side. */
  method AddSides(net: Net, es: seq<Endpoint>, sides: set<Side>, d: Device) returns (r: seq<Endpoint>)
    requires EndpointsOk(net, es) && d.enabled && forall i :: 0 <= i < |es| ==> es[i].devices != []
    ensures EndpointsOk(net, r) && forall i :: 0 <= i < |r| ==> r[i].devices != []
    ensures forall s, x :: Listed(r, s, x) <==> Listed(es, s, x) || (s in sides && x == d)
  {
    r := es;
    if BmcSide in sides {
      r := AddDevice(net, r, BmcSide, d);
    }
    if SshSide in sides {
      r := AddDevice(net, r, SshSide, d);
    }
    forall s, x ensures Listed(r, s, x) <==> Listed(es, s, x) || (s in sides && x == d) {
      assert s == BmcSide || s == SshSide;
    }
  }

  /** The endpoints of the enabled devices on the probed sides. */
  method GroupByEndpoint(net: Net, devices: seq<Device>, sides: set<Side>) returns (es: seq<Endpoint>)
    ensures EndpointsOk(net, es)
    ensures forall s, d :: Listed(es, s, d) <==> s in sides && d.enabled && d in devices
    ensures forall i :: 0 <= i < |es| ==> es[i].devices != []
  {
    es := [];
    var n := 0;
    while n < |devices|
      invariant n <= |devices| && EndpointsOk(net, es)
      invariant forall s, d :: Listed(es, s, d) <==> s in sides && d.enabled && d in devices[..n]
      invariant forall i :: 0 <= i < |es| ==> es[i].devices != []
    {
      var d := devices[n];
      assert devices[..n + 1] == devices[..n] + [d];
      if d.enabled {
        es := AddSides(net, es, sides, d);
      }
      n := n + 1;
    }
    assert devices[..n] == devices;
  }

  predicate Answered(net: Net, e: Endpoint, results: map<string, Status>) {
    e.key in results && results[e.key] == EndpointStatus(net, e.side, e.host)
  }

  /** Endpoints without an address are answered at once; the others are handed to the pool. */
  method SubmitProbes(net: Net, es: seq<Endpoint>) returns (results: map<string, Status>, submitted: set<nat>)
    requires EndpointsOk(net, es)
    ensures forall i :: i in submitted <==> 0 <= i < |es| && !EmptyKey(es[i].key)
    ensures forall i :: 0 <= i < |es| && i !in submitted ==> Answered(net, es[i], results)
  {
    results, submitted := map[], {};
    var n := 0;
    while n < |es|
      invariant n <= |es|
      invariant forall i :: i in submitted <==> 0 <= i < n && !EmptyKey(es[i].key)
      invariant forall i :: 0 <= i < n && i !in submitted ==> Answered(net, es[i], results)
    {
      if EmptyKey(es[n].key) {
        results := results[es[n].key := IP_EMPTY];
      } else {
        submitted := submitted + {n};
      }
      n := n + 1;
    }
  }

  /** Each endpoint that has an address is probed once, whatever the order in which the answers come in. */
  method ProbeAll(net: Net, es: seq<Endpoint>) returns (results: map<string, Status>, probed: seq<nat>)
    requires EndpointsOk(net, es)
    ensures forall i :: 0 <= i < |es| ==> Answered(net, es[i], results)
    ensures Distinct(probed) && forall i :: i in probed <==> 0 <= i < |es| && !EmptyKey(es[i].key)
  {
    var submitted;
    results, submitted := SubmitProbes(net, es);
    probed := [];
    ghost var all := submitted;
    while submitted != {}
      invariant submitted <= all && Distinct(probed)
      invariant forall i :: i in probed <==> i in all - submitted
      invariant forall i :: 0 <= i < |es| && i !in submitted ==> Answered(net, es[i], results)
      decreases |submitted|
    {
      var i :| i in submitted;
      assert i !in probed;
      results := results[es[i].key := Probe(net, es[i].side, es[i].host)];
      probed := probed + [i];
      submitted := submitted - {i};
    }
  }

  /** A device name stands for one pair of addresses. */
  ghost predicate NamesAgree(devices: seq<Device>) {
    forall c, d :: c in devices && d in devices && c.enabled && d.enabled && c.name == d.name ==>
      c.bmcIp == d.bmcIp && c.inbandIp == d.inbandIp
  }

  lemma EndpointStatusIsShared(net: Net, e: Endpoint, d: Device)
    requires EndpointOk(net, e) && d in e.devices
    ensures EndpointStatus(net, e.side, e.host) == SharedStatus(net, e.side, RawHost(d, e.side))
  {
    var host := Resolve(net.urlHost, RawHost(d, e.side));
    if !EmptyKey(e.key) {
      KeysTellHostsApart(e.side, e.host, host);
    }
  }

  ghost predicate RowsOk(net: Net, rows: map<string, Row>, side: Side, d: Device) {
    d.name in rows && StatusOn(rows[d.name], side) == SharedStatus(net, side, RawHost(d, side))
  }

  /** A device with a plain address learns what connecting to that address comes to. */
  lemma PlainRow(net: Net, rows: map<string, Row>, side: Side, d: Device)
    requires RowsOk(net, rows, side, d)
    ensures side == BmcSide && IsPlain(d.bmcIp) ==> d.name in rows && rows[d.name].bmc == net.connect(d.bmcIp, BmcSide)
    ensures side == SshSide && IsPlain(d.inbandIp) ==> d.name in rows && rows[d.name].ssh == net.connect(d.inbandIp, SshSide)
  {
    if side == BmcSide && IsPlain(d.bmcIp) {
      PlainIsProbed(net, side, d.bmcIp);
    }
    if side == SshSide && IsPlain(d.inbandIp) {
      PlainIsProbed(net, side, d.inbandIp);
    }
  }

  lemma SameNameSameStatus(net: Net, devices: seq<Device>, c: Device, d: Device, side: Side)
    requires NamesAgree(devices) && c in devices && d in devices && c.enabled && d.enabled && c.name == d.name
    ensures SharedStatus(net, side, RawHost(c, side)) == SharedStatus(net, side, RawHost(d, side))
  {
  }

  /** One device learns its status; no row that was right becomes wrong. */
  lemma OneRow(net: Net, rows: map<string, Row>, side: Side, d: Device, devices: seq<Device>, s: Side, c: Device)
    requires NamesAgree(devices) && d in devices && d.enabled && c in devices && c.enabled && RowsOk(net, rows, s, c)
    ensures RowsOk(net, Delivered(net, rows, side, d), s, c)
  {
    if c.name == d.name {
      SameNameSameStatus(net, devices, c, d, side);
    }
  }

  function Delivered(net: Net, rows: map<string, Row>, side: Side, d: Device): map<string, Row> {
    rows[d.name := WithStatus(if d.name in rows then rows[d.name] else Row(OK, OK), side, SharedStatus(net, side, RawHost(d, side)))]
  }

  lemma DeliveredKeeps(net: Net, rows: map<string, Row>, side: Side, d: Device, devices: seq<Device>)
    requires NamesAgree(devices) && d in devices && d.enabled
    ensures var r := Delivered(net, rows, side, d);
      && RowsOk(net, r, side, d) && (forall n :: n in r <==> n in rows || n == d.name)
      && (forall s, c :: c in devices && c.enabled && RowsOk(net, rows, s, c) ==> RowsOk(net, r, s, c))
      && (forall n :: n in r ==> Other(r[n], side) == if n in rows then Other(rows[n], side) else OK)
  {
    var r := Delivered(net, rows, side, d);
    forall s, c | c in devices && c.enabled && RowsOk(net, rows, s, c) ensures RowsOk(net, r, s, c) {
      OneRow(net, rows, side, d, devices, s, c);
    }
  }

  /** The first `n` devices of the endpoint have their answer, and nothing else has changed. */
  ghost predicate DeliveredTo(net: Net, rows: map<string, Row>, r: map<string, Row>, e: Endpoint, devices: seq<Device>, n: nat)
    requires n <= |e.devices|
  {
    && (forall d :: d in e.devices[..n] ==> RowsOk(net, r, e.side, d))
    && (forall s, d :: d in devices && d.enabled && RowsOk(net, rows, s, d) ==> RowsOk(net, r, s, d))
    && (forall x :: x in rows ==> x in r)
    && (forall x :: x in r ==> x in rows || exists d :: d in e.devices && d.name == x)
    && (forall x :: x in r ==> Other(r[x], e.side) == if x in rows then Other(rows[x], e.side) else OK)
  }

  lemma DeliveredNext(net: Net, rows: map<string, Row>, r: map<string, Row>, e: Endpoint, devices: seq<Device>, n: nat)
    requires NamesAgree(devices) && EndpointOk(net, e) && (forall d :: d in e.devices ==> d in devices)
    requires n < |e.devices| && DeliveredTo(net, rows, r, e, devices, n)
    ensures DeliveredTo(net, rows, Delivered(net, r, e.side, e.devices[n]), e, devices, n + 1)
  {
    var d := e.devices[n];
    assert d in e.devices && e.devices[..n + 1] == e.devices[..n] + [d];
    DeliveredKeeps(net, r, e.side, d, devices);
  }

  /** The answer of one endpoint goes to its devices; rows of other devices, and other sides, stay as they are. */
  method Deliver(net: Net, rows: map<string, Row>, e: Endpoint, status: Status, ghost devices: seq<Device>) returns (r: map<string, Row>)
    requires NamesAgree(devices) && EndpointOk(net, e) && status == EndpointStatus(net, e.side, e.host)
    requires forall d :: d in e.devices ==> d in devices
    ensures forall d :: d in e.devices ==> RowsOk(net, r, e.side, d)
    ensures forall s, d :: d in devices && d.enabled && RowsOk(net, rows, s, d) ==> RowsOk(net, r, s, d)
    ensures forall n :: n in r ==> n in rows || exists d :: d in e.devices && d.name == n
    ensures forall n :: n in r ==> Other(r[n], e.side) == if n in rows then Other(rows[n], e.side) else OK
  {
    r := rows;
    var n := 0;
    while n < |e.devices|
      invariant n <= |e.devices| && DeliveredTo(net, rows, r, e, devices, n)
    {
      var d := e.devices[n];
      EndpointStatusIsShared(net, e, d);
      DeliveredNext(net, rows, r, e, devices, n);
      r := r[d.name := WithStatus(if d.name in r then r[d.name] else Row(OK, OK), e.side, status)];
      n := n + 1;
    }
    assert e.devices[..n] == e.devices;
  }

  /** The rows of the devices, from the answers for their endpoints. */
  method CollectRows(net: Net, devices: seq<Device>, sides: set<Side>, es: seq<Endpoint>, results: map<string, Status>)
    returns (rows: map<string, Row>)
    requires NamesAgree(devices) && EndpointsOk(net, es)
    requires forall s, d :: Listed(es, s, d) <==> s in sides && d.enabled && d in devices
    requires forall i :: 0 <= i < |es| ==> es[i].devices != [] && Answered(net, es[i], results)
    ensures forall s, d :: s in sides && d in devices && d.enabled ==> RowsOk(net, rows, s, d)
    ensures forall n :: n in rows ==> exists d :: d in devices && d.enabled && d.name == n
    ensures BmcSide !in sides ==> forall n :: n in rows ==> rows[n].bmc == OK
    ensures SshSide !in sides ==> forall n :: n in rows ==> rows[n].ssh == OK
  {
    rows := map[];
    var n := 0;
    while n < |es|
      invariant n <= |es|
      invariant forall i, d :: 0 <= i < n && d in es[i].devices ==> RowsOk(net, rows, es[i].side, d)
      invariant forall x :: x in rows ==> exists d :: d in devices && d.enabled && d.name == x
      invariant BmcSide !in sides ==> forall x :: x in rows ==> rows[x].bmc == OK
      invariant SshSide !in sides ==> forall x :: x in rows ==> rows[x].ssh == OK
    {
      assert es[n].side in sides by { assert Listed(es, es[n].side, es[n].devices[0]); }
      assert Answered(net, es[n], results);
      forall d | d in es[n].devices ensures d in devices && d.enabled {
        assert Listed(es, es[n].side, d);
      }
      forall i, d | 0 <= i < n && d in es[i].devices ensures d in devices && d.enabled {
        assert Listed(es, es[i].side, d);
      }
      rows := Deliver(net, rows, es[n], results[es[n].key], devices);
      n := n + 1;
    }
    forall s, d | s in sides && d in devices && d.enabled ensures RowsOk(net, rows, s, d) {
      assert Listed(es, s, d);
    }
  }

  /**
   A batch of checks. Every enabled device ends up, on each probed side, with the status of its own endpoint, and every
   endpoint that has an address was probed exactly once.
   */
  method CheckAll(net: Net, devices: seq<Device>, sides: set<Side>) returns (rows: map<string, Row>, probed: seq<string>)
    requires NamesAgree(devices)
    ensures forall s, d :: s in sides && d in devices && d.enabled ==> RowsOk(net, rows, s, d)
    ensures forall n :: n in rows ==> exists d :: d in devices && d.enabled && d.name == n
    ensures forall d :: BmcSide in sides && d in devices && d.enabled && IsPlain(d.bmcIp) ==>
      d.name in rows && rows[d.name].bmc == net.connect(d.bmcIp, BmcSide)
    ensures forall d :: SshSide in sides && d in devices && d.enabled && IsPlain(d.inbandIp) ==>
      d.name in rows && rows[d.name].ssh == net.connect(d.inbandIp, SshSide)
    ensures BmcSide !in sides ==> forall n :: n in rows ==> rows[n].bmc == OK
    ensures SshSide !in sides ==> forall n :: n in rows ==> rows[n].ssh == OK
    ensures Distinct(probed)
    ensures forall k :: k in probed <==>
      !EmptyKey(k) && exists s, d :: s in sides && d in devices && d.enabled && KeyFor(net, s, d) == k
  {
    var es := GroupByEndpoint(net, devices, sides);
    var results, order := ProbeAll(net, es);
    probed := seq(|order|, i requires 0 <= i < |order| => if order[i] < |es| then es[order[i]].key else "");
    rows := CollectRows(net, devices, sides, es, results);
    PlainRows(net, rows, devices, sides);
    forall i | 0 <= i < |order| ensures order[i] < |es| {
      assert order[i] in order;
    }
    ProbedKeys(net, devices, sides, es, order, probed);
  }

  lemma PlainRows(net: Net, rows: map<string, Row>, devices: seq<Device>, sides: set<Side>)
    requires forall s, d :: s in sides && d in devices && d.enabled ==> RowsOk(net, rows, s, d)
    ensures forall d :: BmcSide in sides && d in devices && d.enabled && IsPlain(d.bmcIp) ==>
      d.name in rows && rows[d.name].bmc == net.connect(d.bmcIp, BmcSide)
    ensures forall d :: SshSide in sides && d in devices && d.enabled && IsPlain(d.inbandIp) ==>
      d.name in rows && rows[d.name].ssh == net.connect(d.inbandIp, SshSide)
  {
    forall d | BmcSide in sides && d in devices && d.enabled && IsPlain(d.bmcIp)
      ensures d.name in rows && rows[d.name].bmc == net.connect(d.bmcIp, BmcSide)
    {
      PlainRow(net, rows, BmcSide, d);
    }
    forall d | SshSide in sides && d in devices && d.enabled && IsPlain(d.inbandIp)
      ensures d.name in rows && rows[d.name].ssh == net.connect(d.inbandIp, SshSide)
    {
      PlainRow(net, rows, SshSide, d);
    }
  }

  lemma ProbedKeys(net: Net, devices: seq<Device>, sides: set<Side>, es: seq<Endpoint>, order: seq<nat>, probed: seq<string>)
    requires EndpointsOk(net, es) && Distinct(order)
    requires forall s, d :: Listed(es, s, d) <==> s in sides && d.enabled && d in devices
    requires forall i :: 0 <= i < |es| ==> es[i].devices != []
    requires forall i :: i in order <==> 0 <= i < |es| && !EmptyKey(es[i].key)
    requires |probed| == |order| && forall i :: 0 <= i < |order| ==> order[i] < |es| && probed[i] == es[order[i]].key
    ensures Distinct(probed)
    ensures forall k :: k in probed <==>
      !EmptyKey(k) && exists s, d :: s in sides && d in devices && d.enabled && KeyFor(net, s, d) == k
  {
    forall k | k in probed
      ensures !EmptyKey(k) && exists s, d :: s in sides && d in devices && d.enabled && KeyFor(net, s, d) == k
    {
      var i :| 0 <= i < |probed| && probed[i] == k;
      assert order[i] in order;
      var e := es[order[i]];
      var d := e.devices[0];
      assert Listed(es, e.side, d) && KeyFor(net, e.side, d) == k;
    }
    forall s, d | s in sides && d in devices && d.enabled && !EmptyKey(KeyFor(net, s, d)) ensures KeyFor(net, s, d) in probed {
      assert Listed(es, s, d);
      var i :| 0 <= i < |es| && es[i].side == s && d in es[i].devices;
      var j :| 0 <= j < |order| && order[j] == i;
      assert probed[j] == es[i].key;
    }
  }

  // ----- gating plans -----

  const PENDING := "PENDING"
  const SKIPPED_BLOCKED := "EXEC_SKIPPED_PORT_BLOCKED"
  const SKIPPED_FAILED := "EXEC_SKIPPED_PRECHECK_FAILED"

  function SideOf(p: Plan): Side {
    if p.protocol.BMC? then BmcSide else SshSide
  }

  /** The plan as the gate leaves it; `reason` describes the failed probe. */
  function Gated(p: Plan, rows: map<string, Row>, reason: string): Plan {
    if p.identity.device !in rows || p.protocol.UNKNOWN? then p
    else
      match StatusOn(rows[p.identity.device], SideOf(p))
      case OK => p
      case PORT_BLOCKED => p.(status := SKIPPED_BLOCKED, skipReason := reason)
      case _ => p.(status := SKIPPED_FAILED, skipReason := reason)
  }

  method ApplyPreflight(plans: seq<Plan>, rows: map<string, Row>, reasons: Plan -> string) returns (gated: seq<Plan>)
    ensures gated == seq(|plans|, i requires 0 <= i < |plans| => Gated(plans[i], rows, reasons(plans[i])))
  {
    gated := plans;
    var i := 0;
    while i < |plans|
      invariant i <= |plans| == |gated|
      invariant forall j :: i <= j < |plans| ==> gated[j] == plans[j]
      invariant forall j :: 0 <= j < i ==> gated[j] == Gated(plans[j], rows, reasons(plans[j]))
    {
      var p := plans[i];
      if p.identity.device in rows {
        var row := rows[p.identity.device];
        if p.protocol.BMC? {
          if row.bmc == PORT_BLOCKED {
            gated := gated[i := p.(status := SKIPPED_BLOCKED, skipReason := reasons(p))];
          } else if row.bmc != OK {
            gated := gated[i := p.(status := SKIPPED_FAILED, skipReason := reasons(p))];
          }
        } else if p.protocol.SSH? {
          if row.ssh == PORT_BLOCKED {
            gated := gated[i := p.(status := SKIPPED_BLOCKED, skipReason := reasons(p))];
          } else if row.ssh != OK {
            gated := gated[i := p.(status := SKIPPED_FAILED, skipReason := reasons(p))];
          }
        }
      }
      i := i + 1;
    }
  }

  /**
   After check and gate, a plan can run exactly when the shared probe of its endpoint finds it reachable; for a settled
   host that is exactly when probing the endpoint alone does.
   */
  lemma PlanRunsIff(net: Net, p: Plan, d: Device, rows: map<string, Row>, reason: string)
    requires p.status == PENDING && p.identity.device == d.name && !p.protocol.UNKNOWN? && RowsOk(net, rows, SideOf(p), d)
    ensures !Skipped(Gated(p, rows, reason).status) <==> SharedStatus(net, SideOf(p), RawHost(d, SideOf(p))) == OK
    ensures Settled(net.urlHost, SideOf(p), RawHost(d, SideOf(p))) && Connects(net.connect) ==>
      (!Skipped(Gated(p, rows, reason).status) <==> Probe(net, SideOf(p), RawHost(d, SideOf(p))) == OK)
  {
    assert !(EXEC_SKIPPED <= PENDING) by { assert PENDING[0] != EXEC_SKIPPED[0]; }
    assert EXEC_SKIPPED <= SKIPPED_BLOCKED && EXEC_SKIPPED <= SKIPPED_FAILED;
    if Settled(net.urlHost, SideOf(p), RawHost(d, SideOf(p))) && Connects(net.connect) {
      SharedAgreesIff(net.urlHost, SideOf(p), RawHost(d, SideOf(p)));
      assert Net(net.urlHost, net.connect) == net;
      assert Agrees(net.urlHost, net.connect, SideOf(p), RawHost(d, SideOf(p)));
    }
  }

  /** What the gate writes on a plan, by what its side's status is. */
  lemma GateIs(p: Plan, rows: map<string, Row>, reason: string)
    ensures p.protocol.UNKNOWN? || p.identity.device !in rows ==> Gated(p, rows, reason) == p
    ensures p.identity.device in rows && !p.protocol.UNKNOWN? ==>
      var status := if p.protocol.BMC? then rows[p.identity.device].bmc else rows[p.identity.device].ssh;
      Gated(p, rows, reason) ==
        if status == OK then p
        else p.(status := if status == PORT_BLOCKED then "EXEC_SKIPPED_PORT_BLOCKED" else "EXEC_SKIPPED_PRECHECK_FAILED",
                skipReason := reason)
  {
  }

  /** For plain addresses: a plan runs exactly when its own side of its device can be connected to. */
  lemma PlainPlanRunsIff(net: Net, p: Plan, d: Device, rows: map<string, Row>, reason: string)
    requires p.status == "PENDING" && p.identity.device == d.name && !p.protocol.UNKNOWN?
    requires p.protocol.BMC? ==> RowsOk(net, rows, BmcSide, d) && IsPlain(d.bmcIp)
    requires p.protocol.SSH? ==> RowsOk(net, rows, SshSide, d) && IsPlain(d.inbandIp)
    ensures var status := if p.protocol.BMC? then net.connect(d.bmcIp, BmcSide) else net.connect(d.inbandIp, SshSide);
      var gated := Gated(p, rows, reason);
      && (gated.status == "PENDING" <==> status == OK)
      && (gated.status == "EXEC_SKIPPED_PORT_BLOCKED" <==> status == PORT_BLOCKED)
      && (gated.status == "EXEC_SKIPPED_PRECHECK_FAILED" <==> status != OK && status != PORT_BLOCKED)
      && (status != OK ==> gated.skipReason == reason)
  {
    PlainRow(net, rows, if p.protocol.BMC? then BmcSide else SshSide, d);
    GateIs(p, rows, reason);
    assert "PENDING"[0] == 'P' && "EXEC_SKIPPED_PORT_BLOCKED"[14] == 'O' && "EXEC_SKIPPED_PRECHECK_FAILED"[14] == 'R';
  }
}
