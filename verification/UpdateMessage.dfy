/**
 The dynamic update messages of dns.c (RFC 2136): a zone, its prerequisites, its updates and an OPT record, with the
 section counts written into the header at the end.
 */
module UpdateMessage {

  import opened Bytes
  import opened Wire
  import opened UpdateLines

  const MAX_UDP_PACKET := 512
  const MAX_EDNS_PACKET := 4096
  const EDNS_LEN := 11

  const TYPE_SOA: u16 := 6
  const TYPE_OPT: u16 := 41
  const CLASS_IN: u16 := 1
  const CLASS_NONE: u16 := 254
  const CLASS_ANY: u16 := 255
  const OPCODE_UPDATE: u16 := 5

  datatype Error = BadInput | OutOfOrder | NoSpace

  datatype Result<+T> = Ok(value: T) | Err(error: Error)

  predicate IsUpdate(c: Command) {
    c.Add? || c.Delete?
  }

  /** The class, type and TTL under which a command goes into the message. */
  function RecordOf(c: Command): Record {
    match c
    case Add(owner, ttl, rtype, data) => Record(owner, rtype, CLASS_IN, ttl, data)
    case Delete(owner, rtype, data) => Record(owner, rtype, if |data| > 0 then CLASS_NONE else CLASS_ANY, 0, data)
    case Require(owner, rtype, data) => Record(owner, rtype, if |data| > 0 then CLASS_IN else CLASS_ANY, 0, data)
    case Prohibit(owner, rtype) => Record(owner, rtype, CLASS_NONE, 0, [])
  }

  function Header(qid: u16): (b: seq<byte>)
    ensures |b| == HEADER_LEN
  {
    PutU16(qid) + PutU16(OPCODE_UPDATE * 0x800) + PutU16(1) + PutU16(0) + PutU16(0) + PutU16(0)
  }

  /** Of each count one byte is written, into the low byte of its field. */
  function WithCounts(p: Packet, prereqs: nat, updates: nat): Packet
    requires |p.bytes| >= HEADER_LEN
  {
    p.(bytes := p.bytes[7 := prereqs % 0x100][9 := updates % 0x100])
  }

  /** One round of the loop of build_update, for a command. */
  function AddCommand(w: Library, cap: nat, p: Packet, updates: nat, c: Command): (r: Result<Packet>)
    requires cap <= 0xFFFF
    ensures r.Ok? ==> p.bytes <= r.value.bytes && |r.value.bytes| <= cap
  {
    if !IsUpdate(c) && updates > 0 then Err(OutOfOrder)
    else if PutRecord(w, cap, p, RecordOf(c)).None? then Err(NoSpace)
    else
      RecordExtends(w, cap, p, RecordOf(c));
      Ok(PutRecord(w, cap, p, RecordOf(c)).value)
  }

  /** What the loop of build_update leaves: with its counts if it has met a send line, without if the lines ended first. */
  datatype Built = Sent(p: Packet, prereqs: nat, updates: nat) | Unsent(p: Packet)

  /** The loop of build_update, over any way of putting a record into a packet. */
  function BuildWith(put: (Packet, Record) -> Option<Packet>, p: Packet, prereqs: nat, updates: nat, lines: seq<Line>):
      Result<Built>
    decreases |lines|
  {
    if lines == [] then Ok(Unsent(p))
    else match lines[0]
      case Send => Ok(Sent(p, prereqs, updates))
      case Bad => Err(BadInput)
      case Do(c) =>
        if !IsUpdate(c) && updates > 0 then Err(OutOfOrder)
        else match put(p, RecordOf(c))
          case None => Err(NoSpace)
          case Some(p') =>
            if IsUpdate(c) then BuildWith(put, p', prereqs, updates + 1, lines[1..])
            else BuildWith(put, p', prereqs + 1, updates, lines[1..])
  }

  function PutAll(put: (Packet, Record) -> Option<Packet>, p: Packet, rs: seq<Record>): Option<Packet>
    decreases |rs|
  {
    if rs == [] then Some(p)
    else match put(p, rs[0])
      case None => None
      case Some(p') => PutAll(put, p', rs[1..])
  }

  function Putter(w: Library, cap: nat): (Packet, Record) -> Option<Packet>
    requires cap <= 0xFFFF
  {
    (p: Packet, r: Record) => PutRecord(w, cap, p, r)
  }

  lemma {:induction false} PutAllIs(w: Library, cap: nat, p: Packet, rs: seq<Record>)
    requires cap <= 0xFFFF
    ensures PutAll(Putter(w, cap), p, rs) == PutRecords(w, cap, p, rs)
    decreases |rs|
  {
    if rs != [] && PutRecord(w, cap, p, rs[0]).Some? {
      PutAllIs(w, cap, PutRecord(w, cap, p, rs[0]).value, rs[1..]);
    }
  }

  lemma {:induction false} BuildGrows(w: Library, cap: nat, p: Packet, prereqs: nat, updates: nat, lines: seq<Line>)
    requires cap <= 0xFFFF
    ensures var r := BuildWith(Putter(w, cap), p, prereqs, updates, lines); r.Ok? ==> |p.bytes| <= |r.value.p.bytes|
    decreases |lines|
  {
    if lines != [] && lines[0].Do? {
      var c := lines[0].command;
      var p' := PutRecord(w, cap, p, RecordOf(c));
      if p'.Some? {
        RecordExtends(w, cap, p, RecordOf(c));
        if IsUpdate(c) {
          BuildGrows(w, cap, p'.value, prereqs, updates + 1, lines[1..]);
        } else {
          BuildGrows(w, cap, p'.value, prereqs + 1, updates, lines[1..]);
        }
      }
    }
  }

  /** The loop of build_update. */
  function BuildFrom(w: Library, cap: nat, p: Packet, prereqs: nat, updates: nat, lines: seq<Line>): (r: Result<Built>)
    requires cap <= 0xFFFF
    ensures r.Ok? ==> |p.bytes| <= |r.value.p.bytes|
  {
    BuildGrows(w, cap, p, prereqs, updates, lines);
    BuildWith(Putter(w, cap), p, prereqs, updates, lines)
  }

  lemma BuildOn(w: Library, cap: nat, p: Packet, prereqs: nat, updates: nat, lines: seq<Line>)
    requires cap <= 0xFFFF && lines != [] && lines[0].Do?
    ensures var c := lines[0].command;
      BuildFrom(w, cap, p, prereqs, updates, lines) ==
        match AddCommand(w, cap, p, updates, c)
        case Err(e) => Err(e)
        case Ok(p') =>
          if IsUpdate(c) then BuildFrom(w, cap, p', prereqs, updates + 1, lines[1..])
          else BuildFrom(w, cap, p', prereqs + 1, updates, lines[1..])
  {
  }

  /** The counts are only written behind a send; without one the request is a success all the same, with zero counts. */
  function Finished(b: Built): Packet
    requires |b.p.bytes| >= HEADER_LEN
  {
    match b
    case Sent(p, prereqs, updates) => WithCounts(p, prereqs, updates)
    case Unsent(p) => p
  }

  /** The header and the zone section. */
  function ZonePart(w: Library, cap: nat, qid: u16, zone: Name): Option<Packet> {
    match PutName(w, cap, Packet(Header(qid), {}), zone)
    case None => None
    case Some(p) => Some(p.(bytes := p.bytes + PutU16(TYPE_SOA) + PutU16(CLASS_IN)))
  }

  function BuildUpdate(w: Library, t: Text, cap: nat, qid: u16, record: seq<string>): (r: Result<Packet>)
    requires cap <= 0xFFFF && record != []
    ensures r.Ok? ==> |r.value.bytes| >= HEADER_LEN
  {
    match t.zone(record[0])
    case None => Err(BadInput)
    case Some(zone) =>
      match ZonePart(w, cap, qid, zone)
      case None => Err(NoSpace)
      case Some(p) =>
        match BuildFrom(w, cap, p, 0, 0, ReadLines(t, zone, record[1..]))
        case Err(e) => Err(e)
        case Ok(b) => Ok(Finished(b))
  }

  function OptRecord(dnssec: bool): (b: seq<byte>)
    ensures |b| == EDNS_LEN
  {
    [0] + PutU16(TYPE_OPT) + PutU16(MAX_EDNS_PACKET) + [0, 0] + PutU16(if dnssec then 0x8000 else 0) + PutU16(0)
  }

  function AddEdns(cap: nat, m: seq<byte>, dnssec: bool): Result<seq<byte>>
    requires |m| >= HEADER_LEN
  {
    if cap - |m| < EDNS_LEN then Err(NoSpace)
    else
      var m' := m + OptRecord(dnssec);
      Ok(m'[11 := (m'[11] as int + 1) % 0x100])
  }

  /** perf_dns_buildrequest in update mode, without TSIG. */
  function BuildRequest(w: Library, t: Text, cap: nat, qid: u16, record: seq<string>, edns: bool, dnssec: bool):
      Result<seq<byte>>
    requires cap <= 0xFFFF && record != []
  {
    match BuildUpdate(w, t, cap, qid, record)
    case Err(e) => Err(e)
    case Ok(p) =>
      if edns then AddEdns(cap, p.bytes, dnssec) else Ok(p.bytes)
  }

  datatype Opt = Opt(size: u16, dnssec: bool)

  datatype Update = Update(qid: u16, flags: u16, zone: Name, prereqs: seq<Record>, updates: seq<Record>,
                           opt: Option<Opt>)

  function GetOpt(m: seq<byte>, at: nat): Option<Opt> {
    if at + EDNS_LEN != |m| || m[at] != 0 || GetU16(m, at + 1) != TYPE_OPT || GetU16(m, at + 5) != 0
      || GetU16(m, at + 9) != 0 then None
    else Some(Opt(GetU16(m, at + 3), GetU16(m, at + 7) >= 0x8000))
  }

  /** The additional section: nothing, or an OPT record that ends the message. */
  function GetAdditional(m: seq<byte>, at: nat, count: nat, u: Update): Option<Update> {
    if count == 0 && at == |m| then Some(u)
    else if count == 1 && GetOpt(m, at).Some? then Some(u.(opt := GetOpt(m, at)))
    else None
  }

  function GetSections(w: Library, m: seq<byte>, at: nat, zone: Name): Option<Update>
    requires |m| >= HEADER_LEN
  {
    match GetRecords(w, m, at, GetU16(m, 6))
    case None => None
    case Some((ps, b)) =>
      match GetRecords(w, m, b, GetU16(m, 8))
      case None => None
      case Some((us, c)) =>
        GetAdditional(m, c, GetU16(m, 10), Update(GetU16(m, 0), GetU16(m, 2), zone, ps, us, None))
  }

  /** An update message as section 2 of RFC 2136 lays it out. */
  function Decode(w: Library, m: seq<byte>): Option<Update> {
    if |m| < HEADER_LEN || GetU16(m, 4) != 1 then None
    else match w.getName(m, HEADER_LEN)
      case None => None
      case Some((zone, a)) =>
        if a + 4 > |m| || GetU16(m, a) != TYPE_SOA || GetU16(m, a + 2) != CLASS_IN then None
        else GetSections(w, m, a + 4, zone)
  }

  /** The lines are these commands, in this order, up to a send. */
  predicate Script(lines: seq<Line>, cmds: seq<Command>)
    decreases |cmds|
  {
    && lines != []
    && if cmds == [] then lines[0] == Send else lines[0] == Do(cmds[0]) && Script(lines[1..], cmds[1..])
  }

  function Records(cmds: seq<Command>): (rs: seq<Record>)
    ensures |rs| == |cmds|
  {
    if cmds == [] then [] else [RecordOf(cmds[0])] + Records(cmds[1..])
  }

  lemma {:induction false} RecordsOfConcat(a: seq<Command>, b: seq<Command>)
    ensures Records(a + b) == Records(a) + Records(b)
  {
    if a == [] {
      assert a + b == b;
    } else {
      RecordsOfConcat(a[1..], b);
      assert (a + b)[1..] == a[1..] + b;
    }
  }

  function Prereqs(cmds: seq<Command>): seq<Command> {
    if cmds == [] then [] else (if IsUpdate(cmds[0]) then [] else [cmds[0]]) + Prereqs(cmds[1..])
  }

  function Updates(cmds: seq<Command>): seq<Command> {
    if cmds == [] then [] else (if IsUpdate(cmds[0]) then [cmds[0]] else []) + Updates(cmds[1..])
  }

  /** No prerequisite behind an update. */
  predicate InOrder(updates: nat, cmds: seq<Command>)
    decreases |cmds|
  {
    cmds == [] ||
    if IsUpdate(cmds[0]) then InOrder(updates + 1, cmds[1..]) else updates == 0 && InOrder(updates, cmds[1..])
  }

  lemma {:induction false} InOrderMeans(updates: nat, cmds: seq<Command>)
    ensures InOrder(updates, cmds) <==>
      && (updates > 0 ==> forall j :: 0 <= j < |cmds| ==> IsUpdate(cmds[j]))
      && (forall i, j :: 0 <= i < j < |cmds| && IsUpdate(cmds[i]) ==> IsUpdate(cmds[j]))
    decreases |cmds|
  {
    if cmds != [] {
      var rest := cmds[1..];
      InOrderMeans(if IsUpdate(cmds[0]) then updates + 1 else updates, rest);
      assert forall j :: 0 < j < |cmds| ==> cmds[j] == rest[j - 1];
      assert forall j :: 0 <= j < |rest| ==> rest[j] == cmds[j + 1];
    }
  }

  lemma {:induction false} OnlyUpdates(updates: nat, cmds: seq<Command>)
    requires updates > 0 && InOrder(updates, cmds)
    ensures Prereqs(cmds) == [] && Updates(cmds) == cmds
    decreases |cmds|
  {
    if cmds != [] {
      OnlyUpdates(updates + 1, cmds[1..]);
    }
  }

  lemma {:induction false} OrderSplits(cmds: seq<Command>)
    requires InOrder(0, cmds)
    ensures cmds == Prereqs(cmds) + Updates(cmds)
  {
    if cmds != [] {
      if IsUpdate(cmds[0]) {
        OnlyUpdates(1, cmds[1..]);
      } else {
        OrderSplits(cmds[1..]);
        assert cmds == [cmds[0]] + cmds[1..];
      }
    }
  }

  /** A script is built exactly when it is in order and its records fit; the records go in as they come, and are counted. */
  lemma {:induction false} BuildIs(put: (Packet, Record) -> Option<Packet>, p: Packet, prereqs: nat, updates: nat,
                                   lines: seq<Line>, cmds: seq<Command>)
    requires Script(lines, cmds)
    ensures var r := BuildWith(put, p, prereqs, updates, lines);
      var all := PutAll(put, p, Records(cmds));
      && (r.Ok? <==> InOrder(updates, cmds) && all.Some?)
      && (r.Ok? ==> r.value == Sent(all.value, prereqs + |Prereqs(cmds)|, updates + |Updates(cmds)|))
    decreases |lines|
  {
    if cmds != [] {
      var c := cmds[0];
      assert Records(cmds)[1..] == Records(cmds[1..]);
      CountOne(cmds);
      var p' := put(p, RecordOf(c));
      if p'.Some? {
        if IsUpdate(c) {
          BuildIs(put, p'.value, prereqs, updates + 1, lines[1..], cmds[1..]);
        } else {
          BuildIs(put, p'.value, prereqs + 1, updates, lines[1..], cmds[1..]);
        }
      }
    }
  }

  lemma CountOne(cmds: seq<Command>)
    requires cmds != []
    ensures |Prereqs(cmds)| == |Prereqs(cmds[1..])| + if IsUpdate(cmds[0]) then 0 else 1
    ensures |Updates(cmds)| == |Updates(cmds[1..])| + if IsUpdate(cmds[0]) then 1 else 0
  {
  }

  /** The header at the end: the counts of one byte each, and the additional records. */
  ghost predicate HeaderOf(m: seq<byte>, qid: u16, n: nat, k: nat, extra: nat) {
    && |m| >= HEADER_LEN
    && GetU16(m, 0) == qid && GetU16(m, 2) == 0x2800 && GetU16(m, 4) == 1
    && GetU16(m, 6) == n % 0x100 && GetU16(m, 8) == k % 0x100 && GetU16(m, 10) == extra
  }

  lemma HeaderReads(m: seq<byte>, qid: u16, n: nat, k: nat)
    requires Header(qid) <= m
    ensures HeaderOf(m[7 := n % 0x100][9 := k % 0x100], qid, n, k, 0)
  {
    var h := Header(qid);
    assert m[0] == h[0] && m[1] == h[1] && m[2] == h[2] && m[3] == h[3] && m[4] == h[4] && m[5] == h[5];
    assert m[6] == h[6] && m[7] == h[7] && m[8] == h[8] && m[9] == h[9] && m[10] == h[10] && m[11] == h[11];
  }

  lemma ZoneFits(w: Library, cap: nat, qid: u16, zone: Name)
    requires Lawful(w) && cap >= MAX_UDP_PACKET
    ensures ZonePart(w, cap, qid, zone).Some?
    ensures var p := ZonePart(w, cap, qid, zone).value;
      TableOk(p) && |p.bytes| <= cap && Header(qid) <= p.bytes
  {
    assert NameLaw(w, Header(qid), {}, zone, []);
  }

  lemma ZoneTail(m: seq<byte>, a: seq<byte>)
    requires |a| >= HEADER_LEN && Extends(m, a + (PutU16(TYPE_SOA) + PutU16(CLASS_IN)))
    ensures Extends(m, a) && |a| + 4 <= |m| && GetU16(m, |a|) == TYPE_SOA && GetU16(m, |a| + 2) == CLASS_IN
  {
    PartHolds(m, a, PutU16(TYPE_SOA) + PutU16(CLASS_IN));
    HoldsSplit(m, |a|, PutU16(TYPE_SOA), PutU16(CLASS_IN));
    U16RoundTrip(m, |a|, TYPE_SOA);
    U16RoundTrip(m, |a| + 2, CLASS_IN);
  }

  lemma ZoneReads(w: Library, cap: nat, qid: u16, zone: Name, m: seq<byte>)
    requires Lawful(w) && ZonePart(w, cap, qid, zone).Some? && Extends(m, ZonePart(w, cap, qid, zone).value.bytes)
    ensures var at := |ZonePart(w, cap, qid, zone).value.bytes|;
      && w.getName(m, HEADER_LEN) == Some((zone, at - 4))
      && GetU16(m, at - 4) == TYPE_SOA && GetU16(m, at - 2) == CLASS_IN
  {
    var p0 := Packet(Header(qid), {});
    var p1 := PutName(w, cap, p0, zone).value;
    assert ZonePart(w, cap, qid, zone).value.bytes == p1.bytes + (PutU16(TYPE_SOA) + PutU16(CLASS_IN));
    ZoneTail(m, p1.bytes);
    NameReads(w, cap, p0, zone, m);
  }

  /** The header and everything up to the end of the update section, in a message that may go on. */
  ghost predicate Carries(w: Library, m: seq<byte>, qid: u16, zone: Name, n: nat, k: nat, at: nat, mid: nat, end: nat,
                          ps: seq<Record>, us: seq<Record>)
  {
    && at >= HEADER_LEN + 4 && at <= |m|
    && w.getName(m, HEADER_LEN) == Some((zone, at - 4))
    && GetU16(m, at - 4) == TYPE_SOA && GetU16(m, at - 2) == CLASS_IN
    && GetRecords(w, m, at, n) == Some((ps, mid))
    && GetRecords(w, m, mid, k) == Some((us, end))
  }

  /** The two record sections read back from every message that goes on from what was built. */
  lemma SectionsRead(w: Library, cap: nat, qid: u16, zone: Name, cmds: seq<Command>, all: Packet, m: seq<byte>)
      returns (at: nat, mid: nat)
    requires Lawful(w) && MAX_UDP_PACKET <= cap <= 0xFFFF && InOrder(0, cmds)
    requires ZonePart(w, cap, qid, zone).Some?
    requires PutRecords(w, cap, ZonePart(w, cap, qid, zone).value, Records(cmds)) == Some(all)
    requires Extends(m, all.bytes)
    ensures Carries(w, m, qid, zone, |Prereqs(cmds)|, |Updates(cmds)|, at, mid, |all.bytes|,
                    Records(Prereqs(cmds)), Records(Updates(cmds)))
  {
    var p := ZonePart(w, cap, qid, zone).value;
    var ps, us := Records(Prereqs(cmds)), Records(Updates(cmds));
    ZoneFits(w, cap, qid, zone);
    OrderSplits(cmds);
    RecordsOfConcat(Prereqs(cmds), Updates(cmds));
    RecordsConcat(w, cap, p, ps, us);
    var q := PutRecords(w, cap, p, ps).value;
    RecordsExtend(w, cap, p, ps);
    RecordsExtend(w, cap, q, us);
    ExtendsOn(m, all.bytes, q.bytes);
    ExtendsOn(m, q.bytes, p.bytes);
    ZoneReads(w, cap, qid, zone, m);
    RecordsRead(w, cap, p, ps, m, q);
    RecordsRead(w, cap, q, us, m, all);
    at, mid := |p.bytes|, |q.bytes|;
  }

  lemma OptReads(cap: nat, b: seq<byte>, dnssec: bool, qid: u16, n: nat, k: nat)
    requires HeaderOf(b, qid, n, k, 0) && cap - |b| >= EDNS_LEN
    ensures var m := AddEdns(cap, b, dnssec).value;
      && HeaderOf(m, qid, n, k, 1) && Extends(m, b) && |m| == |b| + EDNS_LEN
      && GetOpt(m, |b|) == Some(Opt(MAX_EDNS_PACKET, dnssec))
  {
    var o, m := OptRecord(dnssec), AddEdns(cap, b, dnssec).value;
    assert forall i :: 0 <= i < EDNS_LEN ==> m[|b| + i] == o[i];
    assert m[|b| + 0] == o[0] && m[|b| + 1] == o[1] && m[|b| + 2] == o[2] && m[|b| + 3] == o[3] && m[|b| + 4] == o[4];
    assert m[|b| + 5] == o[5] && m[|b| + 6] == o[6] && m[|b| + 7] == o[7] && m[|b| + 8] == o[8];
    assert m[|b| + 9] == o[9] && m[|b| + 10] == o[10];
  }

  /** The message that a script of commands stands for. */
  function Meant(qid: u16, zone: Name, cmds: seq<Command>, edns: bool, dnssec: bool): Update {
    Update(qid, OPCODE_UPDATE * 0x800, zone, Records(Prereqs(cmds)), Records(Updates(cmds)),
           if edns then Some(Opt(MAX_EDNS_PACKET, dnssec)) else None)
  }

  lemma RecordsExtendIfAny(w: Library, cap: nat, p: Packet, rs: seq<Record>)
    requires cap <= 0xFFFF && |p.bytes| <= cap
    ensures PutRecords(w, cap, p, rs).Some? ==> |p.bytes| <= |PutRecords(w, cap, p, rs).value.bytes|
  {
    if PutRecords(w, cap, p, rs).Some? {
      RecordsExtend(w, cap, p, rs);
    }
  }

  /** What BuildRequest makes of a script: the records, the counts, and the OPT record if asked for. */
  lemma RequestIs(w: Library, t: Text, cap: nat, qid: u16, record: seq<string>, edns: bool, dnssec: bool, zone: Name,
                  cmds: seq<Command>)
    requires Lawful(w) && MAX_UDP_PACKET <= cap <= 0xFFFF
    requires record != [] && t.zone(record[0]) == Some(zone) && Script(ReadLines(t, zone, record[1..]), cmds)
    ensures ZonePart(w, cap, qid, zone).Some?
    ensures var r := BuildRequest(w, t, cap, qid, record, edns, dnssec);
      var all := PutRecords(w, cap, ZonePart(w, cap, qid, zone).value, Records(cmds));
      && (r.Ok? <==> InOrder(0, cmds) && all.Some? && (edns ==> |all.value.bytes| + EDNS_LEN <= cap))
      && (r.Ok? ==> |all.value.bytes| >= HEADER_LEN)
      && (r.Ok? ==>
           var b := WithCounts(all.value, |Prereqs(cmds)|, |Updates(cmds)|).bytes;
           Ok(r.value) == if edns then AddEdns(cap, b, dnssec) else Ok(b))
  {
    ZoneFits(w, cap, qid, zone);
    var p := ZonePart(w, cap, qid, zone).value;
    BuildIs(Putter(w, cap), p, 0, 0, ReadLines(t, zone, record[1..]), cmds);
    PutAllIs(w, cap, p, Records(cmds));
    RecordsExtendIfAny(w, cap, p, Records(cmds));
  }

  /** What was built, seen from outside: its header, its sections and what follows them. */
  lemma RequestReads(w: Library, t: Text, cap: nat, qid: u16, record: seq<string>, edns: bool, dnssec: bool, zone: Name,
                     cmds: seq<Command>, m: seq<byte>) returns (at: nat, mid: nat, end: nat)
    requires Lawful(w) && MAX_UDP_PACKET <= cap <= 0xFFFF
    requires record != [] && t.zone(record[0]) == Some(zone) && Script(ReadLines(t, zone, record[1..]), cmds)
    requires BuildRequest(w, t, cap, qid, record, edns, dnssec) == Ok(m)
    ensures HeaderOf(m, qid, |Prereqs(cmds)|, |Updates(cmds)|, if edns then 1 else 0)
    ensures Carries(w, m, qid, zone, |Prereqs(cmds)|, |Updates(cmds)|, at, mid, end,
                    Records(Prereqs(cmds)), Records(Updates(cmds)))
    ensures if edns then GetOpt(m, end) == Some(Opt(MAX_EDNS_PACKET, dnssec)) else end == |m|
  {
    RequestIs(w, t, cap, qid, record, edns, dnssec, zone, cmds);
    ZoneFits(w, cap, qid, zone);
    var p := ZonePart(w, cap, qid, zone).value;
    var all := PutRecords(w, cap, p, Records(cmds)).value;
    var n, k := |Prereqs(cmds)|, |Updates(cmds)|;
    var b := WithCounts(all, n, k).bytes;
    RecordsExtend(w, cap, p, Records(cmds));
    HeaderReads(all.bytes, qid, n, k);
    if edns {
      OptReads(cap, b, dnssec, qid, n, k);
    }
    assert Extends(m, all.bytes);
    at, mid := SectionsRead(w, cap, qid, zone, cmds, all, m);
    end := |b|;
  }

  lemma {:induction false} AsManyRecords(w: Library, m: seq<byte>, at: nat, n: nat)
    ensures GetRecords(w, m, at, n).Some? ==> |GetRecords(w, m, at, n).value.0| == n
    decreases n
  {
    if n > 0 && GetRecord(w, m, at).Some? {
      AsManyRecords(w, m, GetRecord(w, m, at).value.1, n - 1);
    }
  }

  lemma DecodedCounts(w: Library, m: seq<byte>)
    ensures Decode(w, m).Some? ==>
      |Decode(w, m).value.prereqs| == GetU16(m, 6) && |Decode(w, m).value.updates| == GetU16(m, 8)
  {
    if Decode(w, m).Some? {
      var at := w.getName(m, HEADER_LEN).value.1 + 4;
      AsManyRecords(w, m, at, GetU16(m, 6));
      AsManyRecords(w, m, GetRecords(w, m, at, GetU16(m, 6)).value.1, GetU16(m, 8));
    }
  }

  /** A message with these parts decodes to them if the counts in its header are the real ones, and not otherwise. */
  lemma DecodeIs(w: Library, m: seq<byte>, at: nat, mid: nat, end: nat, u: Update)
    requires HeaderOf(m, u.qid, |u.prereqs|, |u.updates|, if u.opt.Some? then 1 else 0) && u.flags == 0x2800
    requires Carries(w, m, u.qid, u.zone, |u.prereqs|, |u.updates|, at, mid, end, u.prereqs, u.updates)
    requires if u.opt.Some? then GetOpt(m, end) == u.opt else end == |m|
    ensures Decode(w, m) == Some(u) <==> |u.prereqs| < 0x100 && |u.updates| < 0x100
  {
    if |u.prereqs| < 0x100 && |u.updates| < 0x100 {
      assert GetU16(m, 6) == |u.prereqs| && GetU16(m, 8) == |u.updates|;
      assert GetSections(w, m, at, u.zone) == Some(u);
    } else {
      DecodedCounts(w, m);
    }
  }

  /**
   The round trip: decoding a request gives back the zone, then the prerequisites, then the updates, and the OPT
   record, exactly when there are fewer than 256 of each.
   */
  lemma RoundTrip(w: Library, t: Text, cap: nat, qid: u16, record: seq<string>, edns: bool, dnssec: bool, zone: Name,
                  cmds: seq<Command>, m: seq<byte>)
    requires Lawful(w) && MAX_UDP_PACKET <= cap <= 0xFFFF
    requires record != [] && t.zone(record[0]) == Some(zone) && Script(ReadLines(t, zone, record[1..]), cmds)
    requires BuildRequest(w, t, cap, qid, record, edns, dnssec) == Ok(m)
    ensures Decode(w, m) == Some(Meant(qid, zone, cmds, edns, dnssec)) <==>
      |Prereqs(cmds)| < 0x100 && |Updates(cmds)| < 0x100
  {
    var at, mid, end := RequestReads(w, t, cap, qid, record, edns, dnssec, zone, cmds, m);
    DecodeIs(w, m, at, mid, end, Meant(qid, zone, cmds, edns, dnssec));
  }

  /** A command from its record: the forms of sections 2.4 and 2.5 of RFC 2136 keep the commands apart. */
  function CommandOf(update: bool, r: Record): Command {
    if update then
      if r.class_ == CLASS_IN then Add(r.owner, r.ttl, r.rtype, r.data) else Delete(r.owner, r.rtype, r.data)
    else
      if r.class_ == CLASS_NONE then Prohibit(r.owner, r.rtype) else Require(r.owner, r.rtype, r.data)
  }

  lemma CommandComesBack(c: Command)
    ensures CommandOf(IsUpdate(c), RecordOf(c)) == c
  {
  }

  /** The nine things an update message can say, in the words of RFC 2136. */
  datatype Clause =
    | RRsetExists | RRsetExistsWithValue | RRsetDoesNotExist | NameIsInUse | NameIsNotInUse
    | AddToAnRRset | DeleteAnRRset | DeleteAllRRsets | DeleteAnRR

  /** Sections 2.4.1 to 2.4.5 for the prerequisite section. */
  function PrereqClause(r: Record): Option<Clause> {
    if r.ttl != 0 then None
    else if r.class_ == CLASS_ANY && r.data == [] then Some(if r.rtype == TYPE_ANY then NameIsInUse else RRsetExists)
    else if r.class_ == CLASS_NONE && r.data == [] then
      Some(if r.rtype == TYPE_ANY then NameIsNotInUse else RRsetDoesNotExist)
    else if r.class_ == CLASS_IN && r.rtype != TYPE_ANY then Some(RRsetExistsWithValue)
    else None
  }

  /** Sections 2.5.1 to 2.5.4 for the update section. */
  function UpdateClause(r: Record): Option<Clause> {
    if r.class_ == CLASS_IN && r.rtype != TYPE_ANY then Some(AddToAnRRset)
    else if r.ttl != 0 then None
    else if r.class_ == CLASS_ANY && r.data == [] then
      Some(if r.rtype == TYPE_ANY then DeleteAllRRsets else DeleteAnRRset)
    else if r.class_ == CLASS_NONE && r.rtype != TYPE_ANY then Some(DeleteAnRR)
    else None
  }

  /** What a command line asks for. */
  function Asked(c: Command): Clause {
    match c
    case Add(_, _, _, _) => AddToAnRRset
    case Delete(_, rtype, data) =>
      if data != [] then DeleteAnRR else if rtype != TYPE_ANY then DeleteAnRRset else DeleteAllRRsets
    case Require(_, rtype, data) =>
      if data != [] then RRsetExistsWithValue else if rtype != TYPE_ANY then RRsetExists else NameIsInUse
    case Prohibit(_, rtype) => if rtype != TYPE_ANY then RRsetDoesNotExist else NameIsNotInUse
  }

  /** Every command says in the message what its line asks for, unless data or an addition comes without a real type. */
  lemma SaysWhatIsAsked(c: Command)
    ensures (if IsUpdate(c) then UpdateClause(RecordOf(c)) else PrereqClause(RecordOf(c))) == Some(Asked(c)) <==>
      c.rtype != TYPE_ANY || !(c.Add? || (!c.Prohibit? && c.data != []))
  {
  }

  /** A conversion that takes every name for the root. */
  function RootText(): Text {
    Text((s: string) => Some([]), (zone: Name, s: string) => Some([]), (s: string) => Some(0), (s: string) => Some(1),
         (zone: Name, ty: u16, s: string) => Some([0]))
  }

  const ROOT: Name := []
  const DELETE_ROOT := Delete(ROOT, TYPE_ANY, [])

  function Repeat<T>(x: T, n: nat): (s: seq<T>)
    ensures |s| == n && forall i :: 0 <= i < n ==> s[i] == x
  {
    seq(n, _ => x)
  }

  /** The zone, n lines that delete all there is at the root, and a send. */
  function DeletesOf(n: nat): seq<string> {
    ["."] + (Repeat("delete .", n) + ["send"])
  }

  lemma DeleteLine()
    ensures ReadLine(RootText(), ROOT, "delete .") == Do(DELETE_ROOT)
  {
    OtherReads(RootText(), ROOT, "delete", ".", "A", "x", " ", " ", " ");
    assert "delete" + (" " + ".") == "delete .";
  }

  lemma SendLine(t: Text, zone: Name)
    ensures ReadLine(t, zone, "send") == Send
  {
    LastToken("send");
    assert "send"[..4] == "send";
  }

  lemma {:induction false} RepeatedScript(t: Text, zone: Name, line: string, end: string, c: Command, n: nat)
    requires ReadLine(t, zone, line) == Do(c) && ReadLine(t, zone, end) == Send
    ensures Script(ReadLines(t, zone, Repeat(line, n) + [end]), Repeat(c, n))
  {
    var lines := Repeat(line, n) + [end];
    ReadLinesAt(t, zone, lines, 0);
    if n > 0 {
      RepeatedScript(t, zone, line, end, c, n - 1);
      assert lines[1..] == Repeat(line, n - 1) + [end] && Repeat(c, n)[1..] == Repeat(c, n - 1);
      ReadLinesRest(t, zone, lines);
    }
  }

  lemma {:induction false} RepeatedUpdates(c: Command, n: nat, updates: nat)
    requires IsUpdate(c)
    ensures Prereqs(Repeat(c, n)) == [] && |Updates(Repeat(c, n))| == n && InOrder(updates, Repeat(c, n))
    decreases n
  {
    if n > 0 {
      assert Repeat(c, n)[1..] == Repeat(c, n - 1);
      RepeatedUpdates(c, n - 1, updates + 1);
    }
  }

  /** A record without data under the root takes eleven bytes when names are not compressed. */
  lemma PlainRootRecord(cap: nat, p: Packet, r: Record)
    requires r.owner == [] && r.data == [] && |p.bytes| + 11 <= cap <= 0xFFFF
    ensures PutRecord(Plain(), cap, p, r).Some? && |PutRecord(Plain(), cap, p, r).value.bytes| == |p.bytes| + 11
  {
    assert PlainName([]) == [0];
  }

  lemma {:induction false} PlainRootRecords(cap: nat, p: Packet, rs: seq<Record>)
    requires (forall r :: r in rs ==> r.owner == [] && r.data == []) && |p.bytes| + 11 * |rs| <= cap <= 0xFFFF
    ensures PutRecords(Plain(), cap, p, rs).Some?
    ensures |PutRecords(Plain(), cap, p, rs).value.bytes| == |p.bytes| + 11 * |rs|
    decreases |rs|
  {
    if rs != [] {
      PlainRootRecord(cap, p, rs[0]);
      PlainRootRecords(cap, PutRecord(Plain(), cap, p, rs[0]).value, rs[1..]);
    }
  }

  lemma {:induction false} RepeatedRecords(c: Command, n: nat)
    ensures forall r :: r in Records(Repeat(c, n)) ==> r == RecordOf(c)
  {
    if n > 0 {
      assert Repeat(c, n)[1..] == Repeat(c, n - 1);
      RepeatedRecords(c, n - 1);
    }
  }

  /**
   Requests that are accepted, and whose message does not say what was asked for: 256 updates or more, in a packet of the
   size that goes with EDNS.
   */
  lemma TooManyUpdates(n: nat, qid: u16, dnssec: bool)
    requires 0x100 <= n && 28 + 11 * n <= MAX_EDNS_PACKET
    ensures var r := BuildRequest(Plain(), RootText(), MAX_EDNS_PACKET, qid, DeletesOf(n), true, dnssec);
      r.Ok? && Decode(Plain(), r.value) != Some(Meant(qid, ROOT, Repeat(DELETE_ROOT, n), true, dnssec))
  {
    var w, t, cap, record, cmds := Plain(), RootText(), MAX_EDNS_PACKET, DeletesOf(n), Repeat(DELETE_ROOT, n);
    PlainIsLawful();
    DeleteLine();
    SendLine(t, ROOT);
    var lines := record[1..];
    assert lines == Repeat("delete .", n) + ["send"];
    RepeatedScript(t, ROOT, "delete .", "send", DELETE_ROOT, n);
    RepeatedUpdates(DELETE_ROOT, n, 0);
    RepeatedRecords(DELETE_ROOT, n);
    RequestIs(w, t, cap, qid, record, true, dnssec, ROOT, cmds);
    var p := ZonePart(w, cap, qid, ROOT).value;
    assert |p.bytes| == 17 by {
      assert PlainName([]) == [0];
    }
    PlainRootRecords(cap, p, Records(cmds));
    var m := BuildRequest(w, t, cap, qid, record, true, dnssec).value;
    RoundTrip(w, t, cap, qid, record, true, dnssec, ROOT, cmds, m);
  }

  /** Every record takes at least ten bytes. */
  lemma {:induction false} RecordsTakeRoom(w: Library, cap: nat, p: Packet, rs: seq<Record>)
    requires cap <= 0xFFFF && |p.bytes| <= cap && PutRecords(w, cap, p, rs).Some?
    ensures |p.bytes| + 10 * |rs| <= |PutRecords(w, cap, p, rs).value.bytes| <= cap
    decreases |rs|
  {
    if rs != [] {
      RecordShape(w, cap, p, rs[0]);
      RecordsTakeRoom(w, cap, PutRecord(w, cap, p, rs[0]).value, rs[1..]);
    }
  }

  lemma {:induction false} SectionsWithin(cmds: seq<Command>)
    ensures |Prereqs(cmds)| + |Updates(cmds)| == |cmds|
  {
    if cmds != [] {
      SectionsWithin(cmds[1..]);
    }
  }

  /** In a packet with room for fewer than 256 records, as without EDNS, every accepted request says what was asked for. */
  lemma SmallPacketsRoundTrip(w: Library, t: Text, cap: nat, qid: u16, record: seq<string>, edns: bool, dnssec: bool,
                              zone: Name, cmds: seq<Command>, m: seq<byte>)
    requires Lawful(w) && MAX_UDP_PACKET <= cap < HEADER_LEN + 4 + 10 * 0x100
    requires record != [] && t.zone(record[0]) == Some(zone) && Script(ReadLines(t, zone, record[1..]), cmds)
    requires BuildRequest(w, t, cap, qid, record, edns, dnssec) == Ok(m)
    ensures Decode(w, m) == Some(Meant(qid, zone, cmds, edns, dnssec))
  {
    RequestIs(w, t, cap, qid, record, edns, dnssec, zone, cmds);
    ZoneFits(w, cap, qid, zone);
    RecordsTakeRoom(w, cap, ZonePart(w, cap, qid, zone).value, Records(cmds));
    assert |ZonePart(w, cap, qid, zone).value.bytes| >= HEADER_LEN + 4;
    SectionsWithin(cmds);
    RoundTrip(w, t, cap, qid, record, edns, dnssec, zone, cmds, m);
  }
}
