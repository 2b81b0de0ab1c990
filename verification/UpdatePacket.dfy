/** The builder of dns.c as it works on its buffer: appending, and going back to patch lengths and counts. */
module UpdatePacket {

  import opened Bytes
  import opened Wire
  import opened UpdateLines
  import opened UpdateMessage

  method SkipSpaces(s: string) returns (rest: string)
    ensures rest == Skip(s)
  {
    rest := s;
    while rest != [] && IsSpace(rest[0])
      invariant Skip(rest) == Skip(s)
      decreases |rest|
    {
      rest := rest[1..];
    }
  }

  /** read_update_line */
  method ReadUpdateLine(t: Text, zone: Name, line: string, wantTtl: bool, wantData: bool, needData: bool)
      returns (r: Option<Fields>)
    ensures r == ReadFields(t, zone, line, wantTtl, wantData, needData)
  {
    var str := SkipSpaces(line);
    var n := TokenLen(str);
    var owner := t.owner(zone, str[..n]);
    if owner == None {
      return None;
    }
    str := SkipSpaces(str[n..]);
    var ttl: u32 := 0;
    if wantTtl {
      n := TokenLen(str);
      var x := t.ttl(str[..n]);
      if x == None {
        return None;
      }
      ttl := x.value;
      str := SkipSpaces(str[n..]);
    }
    n := TokenLen(str);
    if n == 0 {
      return Some(Fields(owner.value, ttl, TYPE_ANY, []));
    }
    var rtype := t.rtype(str[..n]);
    if rtype == None {
      return None;
    }
    str := SkipSpaces(str[n..]);
    var f := Fields(owner.value, ttl, rtype.value, []);
    if !wantData {
      return Some(f);
    }
    if str == [] {
      return if needData then None else Some(f);
    }
    var data := t.data(zone, rtype.value, str);
    if data == None {
      return None;
    }
    return Some(f.(data := data.value));
  }

  /** The command of one line. */
  method ReadCommand(t: Text, zone: Name, line: string) returns (l: Line)
    ensures l == ReadLine(t, zone, line)
  {
    var n := TokenLen(line);
    var token, str := line[..n], line[n..];
    if TokenEquals(token, "send") {
      return Send;
    } else if TokenEquals(token, "add") {
      var f := ReadUpdateLine(t, zone, str, true, true, true);
      return if f == None then Bad else Do(Add(f.value.owner, f.value.ttl, f.value.rtype, f.value.data));
    } else if TokenEquals(token, "delete") {
      var f := ReadUpdateLine(t, zone, str, false, true, false);
      return if f == None then Bad else Do(Delete(f.value.owner, f.value.rtype, f.value.data));
    } else if TokenEquals(token, "require") {
      var f := ReadUpdateLine(t, zone, str, false, true, false);
      return if f == None then Bad else Do(Require(f.value.owner, f.value.rtype, f.value.data));
    } else if TokenEquals(token, "prohibit") {
      var f := ReadUpdateLine(t, zone, str, false, false, false);
      return if f == None then Bad else Do(Prohibit(f.value.owner, f.value.rtype));
    } else {
      return Bad;
    }
  }

  method CommandAt(t: Text, zone: Name, record: seq<string>, i: nat, ghost lines: seq<Line>) returns (l: Line)
    requires 1 <= i < |record| && lines == ReadLines(t, zone, record[1..])
    ensures l == lines[i - 1]
  {
    ReadLinesAt(t, zone, record[1..], i - 1);
    l := ReadCommand(t, zone, record[i]);
  }

  /** An isc_buffer over a fixed array: the first `used` bytes are the message. */
  class Buffer {
    const buf: array<byte>
    var used: nat
    var table: set<nat>

    ghost predicate Valid()
      reads this`used
    {
      used <= buf.Length
    }

    ghost function Abs(): Packet
      requires Valid()
      reads this, buf
    {
      Packet(buf[..used], table)
    }

    constructor (cap: nat)
      ensures Valid() && fresh(buf) && buf.Length == cap && Abs() == Packet([], {})
    {
      buf := new byte[cap](_ => 0);
      used, table := 0, {};
    }

    method PutUint8(x: byte)
      requires Valid() && used < buf.Length
      modifies this`used, buf
      ensures Valid() && used == old(used) + 1 && buf[..used] == old(buf[..used]) + [x]
    {
      buf[used] := x;
      used := used + 1;
    }

    method PutUint16(x: u16)
      requires Valid() && used + 2 <= buf.Length
      modifies this`used, buf
      ensures Valid() && used == old(used) + 2 && buf[..used] == old(buf[..used]) + PutU16(x)
    {
      buf[used], buf[used + 1] := x / 0x100, x % 0x100;
      used := used + 2;
    }

    method PutUint32(x: u32)
      requires Valid() && used + 4 <= buf.Length
      modifies this`used, buf
      ensures Valid() && used == old(used) + 4 && buf[..used] == old(buf[..used]) + PutU32(x)
    {
      PutUint16(x / 0x10000);
      PutUint16(x % 0x10000);
    }

    /** What the library appends; the compression table grows by its place. */
    method PutMem(b: seq<byte>)
      requires Valid() && used + |b| <= buf.Length
      modifies this, buf
      ensures Valid() && used == old(used) + |b| && buf[..used] == old(buf[..used]) + b
      ensures table == old(table) + Offsets(old(used), old(used) + |b|)
    {
      forall i | 0 <= i < |b| {
        buf[used + i] := b[i];
      }
      table := table + Offsets(used, used + |b|);
      used := used + |b|;
    }

    /** A 16-bit number written over two bytes of the message, through a copy of the buffer taken there. */
    method SetUint16(at: nat, x: u16)
      requires Valid() && at + 2 <= used
      modifies buf
      ensures buf[..used] == Patched(old(buf[..used]), at, x)
    {
      buf[at], buf[at + 1] := x / 0x100, x % 0x100;
    }

    method SetUint8(at: nat, x: byte)
      requires Valid() && at < used
      modifies buf
      ensures buf[..used] == old(buf[..used])[at := x]
    {
      buf[at] := x;
    }

    method NameToWire(w: Library, n: Name) returns (ok: bool)
      requires Valid()
      modifies this, buf
      ensures Valid() && (ok <==> PutName(w, buf.Length, old(Abs()), n).Some?)
      ensures Abs() == if ok then PutName(w, buf.Length, old(Abs()), n).value else old(Abs())
    {
      var b := w.putName(buf[..used], table, n);
      ok := used + |b| <= buf.Length;
      if ok {
        PutMem(b);
      }
    }

    method DataToWire(w: Library, t: u16, data: seq<byte>) returns (ok: bool)
      requires Valid()
      modifies this, buf
      ensures Valid() && used >= old(used) && (ok <==> PutData(w, buf.Length, old(Abs()), t, data).Some?)
      ensures Abs() == if ok then PutData(w, buf.Length, old(Abs()), t, data).value else old(Abs())
    {
      var b := w.putData(buf[..used], table, t, data);
      ok := used + |b| <= buf.Length;
      if ok {
        PutMem(b);
      }
    }

    /** The fixed part of a record, with a zero where the length will go. */
    method PutFixed(r: Record) returns (rdlenAt: nat)
      requires Valid() && used + 10 <= buf.Length
      modifies this`used, buf
      ensures Valid() && used == old(used) + 10 && rdlenAt == old(used) + 8
      ensures buf[..used] == old(buf[..used]) + Fixed(r) + PutU16(0)
    {
      PutUint16(r.rtype);
      PutUint16(r.class_);
      PutUint32(r.ttl);
      rdlenAt := used;
      PutUint16(0);
    }

    /** The data behind the fixed part, and its length put in place afterwards. */
    method AddData(w: Library, r: Record, rdlenAt: nat, ghost p: Packet) returns (ok: bool)
      requires Valid() && buf.Length <= 0xFFFF && rdlenAt + 2 == used && |p.bytes| + 10 == used
      requires Abs() == Packet(p.bytes + Fixed(r) + PutU16(0), p.table)
      modifies this, buf
      ensures Valid() && (ok <==> DataPart(w, buf.Length, p, r).Some?)
      ensures ok ==>
        var p2 := DataPart(w, buf.Length, p, r).value;
        |p.bytes| + 10 <= |p2.bytes| <= buf.Length &&
        Abs() == p2.(bytes := Patched(p2.bytes, |p.bytes| + 8, |p2.bytes| - |p.bytes| - 10))
    {
      ok := true;
      if |r.data| > 0 {
        ok := DataToWire(w, r.rtype, r.data);
        if ok {
          SetUint16(rdlenAt, used - rdlenAt - 2);
        }
      }
    }

    /** One record of build_update. */
    method AddRecord(w: Library, r: Record) returns (ok: bool)
      requires Valid() && buf.Length <= 0xFFFF
      modifies this, buf
      ensures Valid() && (ok <==> PutRecord(w, buf.Length, old(Abs()), r).Some?)
      ensures ok ==> Abs() == PutRecord(w, buf.Length, old(Abs()), r).value
    {
      ok := NameToWire(w, r.owner);
      if !ok || buf.Length - used < 10 {
        return false;
      }
      ghost var p := Abs();
      var rdlenAt := PutFixed(r);
      ok := AddData(w, r, rdlenAt, p);
    }

    method AddOne(w: Library, c: Command, updates: nat) returns (error: Option<Error>)
      requires Valid() && buf.Length <= 0xFFFF
      modifies this, buf
      ensures Valid()
      ensures match AddCommand(w, buf.Length, old(Abs()), updates, c)
        case Ok(p) => error == None && Abs() == p
        case Err(e) => error == Some(e)
    {
      if !IsUpdate(c) && updates > 0 {
        return Some(OutOfOrder);
      }
      var ok := AddRecord(w, RecordOf(c));
      return if ok then None else Some(NoSpace);
    }

    /** The two section counts, in the header. */
    method SetCounts(prereqs: nat, updates: nat)
      requires Valid() && used >= HEADER_LEN
      modifies buf
      ensures Abs() == WithCounts(old(Abs()), prereqs, updates)
    {
      SetUint8(7, prereqs % 0x100);
      SetUint8(9, updates % 0x100);
    }

    /** One round of the loop of build_update: it ends the loop, or leaves the rest of the lines to build. */
    method AddLine(w: Library, line: Line, prereqs: nat, updates: nat, ghost rest: seq<Line>)
        returns (done: bool, error: Option<Error>, prereqs': nat, updates': nat)
      requires Valid() && buf.Length <= 0xFFFF && used >= HEADER_LEN && rest != [] && rest[0] == line
      modifies this, buf
      ensures Valid()
      ensures done ==>
        match BuildFrom(w, buf.Length, old(Abs()), prereqs, updates, rest)
        case Ok(b) => error == None && Abs() == Finished(b)
        case Err(e) => error == Some(e)
      ensures !done ==> used >= HEADER_LEN
      ensures !done ==>
        BuildFrom(w, buf.Length, Abs(), prereqs', updates', rest[1..])
          == BuildFrom(w, buf.Length, old(Abs()), prereqs, updates, rest)
    {
      done, error, prereqs', updates' := true, None, prereqs, updates;
      match line
      case Send => SetCounts(prereqs, updates);
      case Bad => error := Some(BadInput);
      case Do(c) =>
        BuildOn(w, buf.Length, Abs(), prereqs, updates, rest);
        error := AddOne(w, c, updates);
        done := error.Some?;
        if IsUpdate(c) {
          updates' := updates + 1;
        } else {
          prereqs' := prereqs + 1;
        }
    }

    /** The loop of build_update over the lines behind the zone. */
    method AddLines(w: Library, t: Text, zone: Name, record: seq<string>) returns (error: Option<Error>)
      requires Valid() && buf.Length <= 0xFFFF && used >= HEADER_LEN && record != []
      modifies this, buf
      ensures Valid()
      ensures match BuildFrom(w, buf.Length, old(Abs()), 0, 0, ReadLines(t, zone, record[1..]))
        case Ok(b) => error == None && Abs() == Finished(b)
        case Err(e) => error == Some(e)
    {
      ghost var lines := ReadLines(t, zone, record[1..]);
      ghost var goal := BuildFrom(w, buf.Length, Abs(), 0, 0, lines);
      var prereqs: nat, updates: nat := 0, 0;
      var i := 1;
      assert lines[0..] == lines;
      while i < |record|
        invariant 1 <= i <= |record| && Valid() && used >= HEADER_LEN
        invariant BuildFrom(w, buf.Length, Abs(), prereqs, updates, lines[i - 1..]) == goal
      {
        var line := CommandAt(t, zone, record, i, lines);
        assert lines[i - 1..][0] == line && lines[i - 1..][1..] == lines[i..];
        var done;
        done, error, prereqs, updates := AddLine(w, line, prereqs, updates, lines[i - 1..]);
        if done {
          return;
        }
        i := i + 1;
      }
      return None;
    }

    /** The zone section of build_update, with the compression table started afresh.  There is always room for it. */
    method AddZone(w: Library, qid: u16, zone: Name)
      requires Valid() && buf[..used] == Header(qid) && Lawful(w) && buf.Length >= MAX_UDP_PACKET
      modifies this, buf
      ensures Valid() && ZonePart(w, buf.Length, qid, zone) == Some(Abs())
    {
      table := {};
      ZoneFits(w, buf.Length, qid, zone);
      assert |Header(qid)| == used;
      var ok := NameToWire(w, zone);
      PutUint16(TYPE_SOA);
      PutUint16(CLASS_IN);
    }

    method AddUpdate(w: Library, t: Text, qid: u16, record: seq<string>) returns (error: Option<Error>)
      requires Valid() && buf[..used] == Header(qid) && Lawful(w) && MAX_UDP_PACKET <= buf.Length <= 0xFFFF && record != []
      modifies this, buf
      ensures Valid()
      ensures match BuildUpdate(w, t, buf.Length, qid, record)
        case Ok(p) => error == None && Abs() == p
        case Err(e) => error == Some(e)
    {
      var zone := t.zone(record[0]);
      if zone == None {
        return Some(BadInput);
      }
      AddZone(w, qid, zone.value);
      error := AddLines(w, t, zone.value, record);
    }

    method PutOptFlags(dnssec: bool)
      requires Valid() && used + 6 <= buf.Length
      modifies this`used, buf
      ensures Valid() && used == old(used) + 6
      ensures buf[..used] == old(buf[..used]) + [0, 0] + PutU16(if dnssec then 0x8000 else 0) + PutU16(0)
    {
      PutUint8(0);
      PutUint8(0);
      PutUint16(if dnssec then 0x8000 else 0);
      PutUint16(0);
    }

    method PutOpt(dnssec: bool)
      requires Valid() && used + EDNS_LEN <= buf.Length
      modifies this`used, buf
      ensures Valid() && buf[..used] == old(buf[..used]) + OptRecord(dnssec)
    {
      PutUint8(0);
      PutUint16(TYPE_OPT);
      PutUint16(MAX_EDNS_PACKET);
      PutOptFlags(dnssec);
    }

    /** add_edns */
    method AddOpt(dnssec: bool) returns (ok: bool)
      requires Valid() && used >= HEADER_LEN
      modifies this`used, buf
      ensures Valid()
      ensures match AddEdns(buf.Length, old(buf[..used]), dnssec)
        case Ok(m) => ok && buf[..used] == m
        case Err(_) => !ok && buf[..used] == old(buf[..used])
    {
      if buf.Length - used < EDNS_LEN {
        return false;
      }
      PutOpt(dnssec);
      ghost var m := buf[..used];
      assert buf[11] == m[11];
      SetUint8(11, (buf[11] as int + 1) % 0x100);
      return true;
    }

    method PutHeader(qid: u16)
      requires Valid() && used == 0 && buf.Length >= HEADER_LEN
      modifies this`used, buf
      ensures Valid() && buf[..used] == Header(qid)
    {
      PutUint16(qid);
      PutUint16(OPCODE_UPDATE * 0x800);
      PutUint16(1);
      PutUint16(0);
      PutUint16(0);
      PutUint16(0);
    }

    /** perf_dns_buildrequest in update mode, on a cleared buffer. */
    method Build(w: Library, t: Text, qid: u16, record: seq<string>, edns: bool, dnssec: bool)
        returns (error: Option<Error>)
      requires Valid() && used == 0 && Lawful(w) && MAX_UDP_PACKET <= buf.Length <= 0xFFFF && record != []
      modifies this, buf
      ensures Valid()
      ensures match BuildRequest(w, t, buf.Length, qid, record, edns, dnssec)
        case Ok(m) => error == None && buf[..used] == m
        case Err(e) => error == Some(e)
    {
      PutHeader(qid);
      error := AddUpdate(w, t, qid, record);
      if error == None && edns {
        var ok := AddOpt(dnssec);
        error := if ok then None else Some(NoSpace);
      }
    }
  }
}
