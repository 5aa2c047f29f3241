/** Matching plaintexts with the ciphertext around them (midman/reporter.py, Session.check_packet). */
module Reporters {
  import opened ByteStrings
  import opened Options
  import opened Seqs

  // Timestamps are reals, and the square root is a parameter.

  datatype Plain = Plain(ts: real, data: Bytes)

  datatype CipherRecord = CipherRecord(ts: real, payload: Bytes)

  /** What a packet tells about the connection it came from. */
  datatype Info = Info(ip: string, port: int, cipherSuite: Option<string>, protocolVersion: Option<string>, alpn: Option<string>)

  datatype Packet = Packet(source: Info, destinationIp: string, destinationPort: int, payload: Bytes, packetSize: nat,
                           delay: real, timestamp: real, cipherData: Option<Bytes>)

  // ----- one plaintext -----

  /** The last of the leading timestamps that are before `ts`. */
  function LastBefore(tss: seq<real>, ts: real): Option<real> {
    if tss == [] || tss[0] >= ts then None
    else
      var later := LastBefore(tss[1..], ts);
      if later.Some? then later else Some(tss[0])
  }

  /** The first timestamp after `ts`. */
  function FirstAfter(tss: seq<real>, ts: real): Option<real> {
    if tss == [] then None else if tss[0] > ts then Some(tss[0]) else FirstAfter(tss[1..], ts)
  }

  /** Python's truth of a timestamp: neither None nor zero. */
  predicate Truthy(ts: Option<real>) {
    ts.Some? && ts.value != 0.0
  }

  predicate Matches(start: Option<real>, end: Option<real>, rec: CipherRecord) {
    Truthy(start) && Truthy(end) && start.value <= rec.ts <= end.value
  }

  /** The first record between the two timestamps, and the records before it (all, if there is none). */
  function FindCipher(records: seq<CipherRecord>, start: Option<real>, end: Option<real>): (Option<Bytes>, seq<CipherRecord>) {
    if records == [] then (None, [])
    else if Matches(start, end, records[0]) then (Some(records[0].payload), [])
    else
      var (blob, left) := FindCipher(records[1..], start, end);
      (blob, [records[0]] + left)
  }

  function Delay(sqrt: real -> real, gapMs: real): real {
    if gapMs > 100.0 then sqrt(gapMs) * 10.0 else gapMs
  }

  /** The state that one check reads: the connection the plaintexts came in on, and the one they went out on. */
  datatype Setting = Setting(info: Info, recvTss: seq<real>, records: seq<CipherRecord>,
                             toIp: string, toPort: int, sendTss: seq<real>)

  datatype Verdict = Refused | Skipped | Unmatched(left: seq<CipherRecord>) | Matched(packet: Packet, left: seq<CipherRecord>)

  function Examine(sqrt: real -> real, s: Setting, p: Plain): Verdict {
    if s.recvTss == [] || p.ts < s.recvTss[0] then Refused
    else if s.sendTss == [] || p.ts > s.sendTss[|s.sendTss| - 1] then Skipped
    else
      var start, end := LastBefore(s.recvTss, p.ts), FirstAfter(s.sendTss, p.ts);
      var (blob, left) := FindCipher(s.records, start, end);
      if Truthy(start) && Truthy(end) then
        Matched(Packet(s.info, s.toIp, s.toPort, p.data, |p.data|, Delay(sqrt, (end.value - start.value) * 1000.0), p.ts, blob), left)
      else
        Unmatched(left)
  }

  // ----- all of them -----

  /** How the loop ends: every plaintext examined, with the records of the last one that was looked for
      among them; or a plaintext refused, with those not examined yet. */
  datatype Checked =
    | Finished(reported: seq<Packet>, kept: seq<Plain>, left: Option<seq<CipherRecord>>)
    | Aborted(reported: seq<Packet>, unread: seq<Plain>)

  function LeftOf(v: Verdict, before: Option<seq<CipherRecord>>): Option<seq<CipherRecord>> {
    match v
    case Unmatched(left) => Some(left)
    case Matched(_, left) => Some(left)
    case _ => before
  }

  function ReportedBy(v: Verdict): seq<Packet> {
    if v.Matched? then [v.packet] else []
  }

  function KeptBy(v: Verdict, p: Plain): seq<Plain> {
    if v.Matched? then [] else [p]
  }

  function Check(sqrt: real -> real, s: Setting, plains: seq<Plain>, reported: seq<Packet>, kept: seq<Plain>,
                 left: Option<seq<CipherRecord>>): Checked
    decreases |plains|
  {
    if plains == [] then Finished(reported, kept, left)
    else
      var v := Examine(sqrt, s, plains[0]);
      if v.Refused? then Aborted(reported, plains[1..])
      else Check(sqrt, s, plains[1..], reported + ReportedBy(v), kept + KeptBy(v, plains[0]), LeftOf(v, left))
  }

  class Connection {
    const info: Info
    var cipherRecvTss: seq<real>
    var cipherSendTss: seq<real>
    var plainData: seq<Plain>
    var cipherRecords: seq<CipherRecord>

    constructor (info: Info)
      ensures this.info == info && cipherRecvTss == [] && cipherSendTss == [] && plainData == [] && cipherRecords == []
    {
      this.info := info;
      cipherRecvTss, cipherSendTss, plainData, cipherRecords := [], [], [], [];
    }
  }

  datatype Outcome = NotReady | Completed | RaisedValueError | RaisedUnboundLocal

  ghost function SettingOf(conn: Connection, to: Connection): Setting
    reads conn, to
  {
    Setting(conn.info, conn.cipherRecvTss, conn.cipherRecords, to.info.ip, to.info.port, to.cipherSendTss)
  }

  class Session {
    var internal: Connection?
    var external: Connection?
    var reports: seq<Packet>

    constructor (internal: Connection?, external: Connection?)
      ensures this.internal == internal && this.external == external && reports == []
    {
      this.internal, this.external, reports := internal, external, [];
    }

    /** The connection at the other end. */
    function Peer(to: Connection): Connection?
      reads this
    {
      if to == internal then external else internal
    }

    method CheckPacket(to: Connection, sqrt: real -> real) returns (r: Outcome)
      requires to == internal || to == external
      modifies this`reports, internal, external
      ensures internal == null || external == null ==> r == NotReady && reports == old(reports)
      ensures internal != null && external != null ==>
        var conn := Peer(to);
        var checked := Check(sqrt, old(SettingOf(conn, to)), old(conn.plainData), [], [], None);
        && reports == old(reports) + checked.reported
        && (checked.Aborted? ==> r == RaisedValueError && conn.plainData == checked.unread)
        && (checked.Finished? ==> conn.plainData == checked.kept)
        && (checked.Finished? && checked.left.None? ==> r == RaisedUnboundLocal)
        && (checked.Finished? && checked.left.Some? ==> r == Completed && conn.cipherRecords == checked.left.value)
    {
      if internal == null || external == null {
        return NotReady;
      }
      if to == internal {
        r := CheckBetween(external, to, sqrt);
      } else {
        r := CheckBetween(internal, to, sqrt);
      }
    }

    /** The loop over the plaintexts that came in on `conn`. */
    method CheckBetween(conn: Connection, to: Connection, sqrt: real -> real) returns (r: Outcome)
      modifies this`reports, conn`plainData, conn`cipherRecords
      ensures var checked := Check(sqrt, old(SettingOf(conn, to)), old(conn.plainData), [], [], None);
        && reports == old(reports) + checked.reported
        && (checked.Aborted? ==> r == RaisedValueError && conn.plainData == checked.unread)
        && (checked.Finished? ==> conn.plainData == checked.kept)
        && (checked.Finished? && checked.left.None? ==> r == RaisedUnboundLocal)
        && (checked.Finished? && checked.left.Some? ==> r == Completed && conn.cipherRecords == checked.left.value)
    {
      ghost var s := SettingOf(conn, to);
      ghost var checked := Check(sqrt, s, conn.plainData, [], [], None);
      var plainLeft: seq<Plain>, cipherLeft: Option<seq<CipherRecord>> := [], None;
      ghost var sent: seq<Packet> := [];
      while |conn.plainData| > 0
        invariant SettingOf(conn, to) == s && reports == old(reports) + sent
        invariant checked == Check(sqrt, s, conn.plainData, sent, plainLeft, cipherLeft)
        decreases |conn.plainData|
      {
        ghost var plains, kept, left := conn.plainData, plainLeft, cipherLeft;
        var p := conn.plainData[0];
        conn.plainData := conn.plainData[1..];
        var v := ExaminePlain(conn, to, p, sqrt);
        CheckStep(sqrt, s, plains, sent, kept, left);
        match v {
          case Refused => return RaisedValueError;
          case Skipped => plainLeft := plainLeft + [p];
          case Unmatched(l) =>
            cipherLeft := Some(l);
            plainLeft := plainLeft + [p];
          case Matched(packet, l) =>
            cipherLeft := Some(l);
            reports := reports + [packet];
            sent := sent + [packet];
        }
      }
      conn.plainData := plainLeft;
      if cipherLeft.None? {
        return RaisedUnboundLocal;
      }
      conn.cipherRecords := cipherLeft.value;
      return Completed;
    }

    /** The body of the loop for one plaintext. */
    method ExaminePlain(conn: Connection, to: Connection, p: Plain, sqrt: real -> real) returns (v: Verdict)
      ensures v == Examine(sqrt, SettingOf(conn, to), p)
    {
      if |conn.cipherRecvTss| == 0 || p.ts < conn.cipherRecvTss[0] {
        return Refused;
      }
      var start := SearchStart(conn.cipherRecvTss, p.ts);
      if |to.cipherSendTss| == 0 || p.ts > to.cipherSendTss[|to.cipherSendTss| - 1] {
        return Skipped;
      }
      var end := SearchEnd(to.cipherSendTss, p.ts);
      var blob, left := SearchCipher(conn.cipherRecords, start, end);
      if Truthy(start) && Truthy(end) {
        var gapMs := (end.value - start.value) * 1000.0;
        var delay := if gapMs > 100.0 then sqrt(gapMs) * 10.0 else gapMs;
        return Matched(Packet(conn.info, to.info.ip, to.info.port, p.data, |p.data|, delay, p.ts, blob), left);
      }
      return Unmatched(left);
    }
  }

  lemma CheckStep(sqrt: real -> real, s: Setting, plains: seq<Plain>, reported: seq<Packet>, kept: seq<Plain>,
                  left: Option<seq<CipherRecord>>)
    requires plains != []
    ensures var v, p, rest := Examine(sqrt, s, plains[0]), plains[0], plains[1..];
      Check(sqrt, s, plains, reported, kept, left) ==
        match v
        case Refused => Aborted(reported, rest)
        case Skipped => Check(sqrt, s, rest, reported, kept + [p], left)
        case Unmatched(l) => Check(sqrt, s, rest, reported, kept + [p], Some(l))
        case Matched(packet, l) => Check(sqrt, s, rest, reported + [packet], kept, Some(l))
  {
    assert reported + [] == reported && kept + [] == kept;
  }

  method SearchStart(tss: seq<real>, ts: real) returns (r: Option<real>)
    ensures r == LastBefore(tss, ts)
  {
    r := None;
    assert tss[0..] == tss;
    for i := 0 to |tss|
      invariant LastBefore(tss, ts) == if LastBefore(tss[i..], ts).Some? then LastBefore(tss[i..], ts) else r
    {
      assert tss[i..][1..] == tss[i + 1..];
      if tss[i] < ts {
        r := Some(tss[i]);
      } else {
        break;
      }
    }
  }

  method SearchEnd(tss: seq<real>, ts: real) returns (r: Option<real>)
    ensures r == FirstAfter(tss, ts)
  {
    assert tss[0..] == tss;
    for i := 0 to |tss|
      invariant FirstAfter(tss, ts) == FirstAfter(tss[i..], ts)
    {
      assert tss[i..][1..] == tss[i + 1..];
      if tss[i] > ts {
        return Some(tss[i]);
      }
    }
    return None;
  }

  method SearchCipher(records: seq<CipherRecord>, start: Option<real>, end: Option<real>) returns (blob: Option<Bytes>, left: seq<CipherRecord>)
    ensures (blob, left) == FindCipher(records, start, end)
  {
    left := [];
    assert records[0..] == records && [] + FindCipher(records, start, end).1 == FindCipher(records, start, end).1;
    for i := 0 to |records|
      invariant FindCipher(records, start, end) == (FindCipher(records[i..], start, end).0, left + FindCipher(records[i..], start, end).1)
    {
      assert records[i..][1..] == records[i + 1..];
      if Matches(start, end, records[i]) {
        assert left + [] == left;
        return Some(records[i].payload), left;
      }
      assert left + ([records[i]] + FindCipher(records[i + 1..], start, end).1) == left + [records[i]] + FindCipher(records[i + 1..], start, end).1;
      left := left + [records[i]];
    }
    assert left + [] == left;
    return None, left;
  }

  // ----- what a check keeps, reports and loses -----

  predicate IsReported(sqrt: real -> real, s: Setting, p: Plain) {
    Examine(sqrt, s, p).Matched?
  }

  /** The plaintexts of the reported packets and the kept ones, each in the original order. */
  function Chosen(sqrt: real -> real, s: Setting, plains: seq<Plain>, reported: bool): seq<Plain> {
    if plains == [] then []
    else (if IsReported(sqrt, s, plains[0]) == reported then [plains[0]] else []) + Chosen(sqrt, s, plains[1..], reported)
  }

  function PlainsOf(packets: seq<Packet>): seq<Plain> {
    if packets == [] then [] else [Plain(packets[0].timestamp, packets[0].payload)] + PlainsOf(packets[1..])
  }

  lemma {:induction false} PlainsOfAppend(a: seq<Packet>, b: seq<Packet>)
    ensures PlainsOf(a + b) == PlainsOf(a) + PlainsOf(b)
    decreases |a|
  {
    if a == [] {
      assert a + b == b;
    } else {
      assert (a + b)[1..] == a[1..] + b;
      PlainsOfAppend(a[1..], b);
    }
  }

  lemma {:induction false} CheckChooses(sqrt: real -> real, s: Setting, plains: seq<Plain>, reported: seq<Packet>, kept: seq<Plain>,
                                        left: Option<seq<CipherRecord>>)
    ensures var r := Check(sqrt, s, plains, reported, kept, left);
      r.Finished? ==>
        && r.kept == kept + Chosen(sqrt, s, plains, false)
        && PlainsOf(r.reported) == PlainsOf(reported) + Chosen(sqrt, s, plains, true)
    decreases |plains|
  {
    if plains == [] {
      assert kept + [] == kept && PlainsOf(reported) + [] == PlainsOf(reported);
    } else {
      var p := plains[0];
      var v := Examine(sqrt, s, p);
      if !v.Refused? {
        CheckChooses(sqrt, s, plains[1..], reported + ReportedBy(v), kept + KeptBy(v, p), LeftOf(v, left));
        Associative(kept, KeptBy(v, p), Chosen(sqrt, s, plains[1..], false));
        PlainsOfAppend(reported, ReportedBy(v));
        assert PlainsOf(ReportedBy(v)) == if v.Matched? then [p] else [];
        Associative(PlainsOf(reported), PlainsOf(ReportedBy(v)), Chosen(sqrt, s, plains[1..], true));
      }
    }
  }

  lemma ChosenFirst(sqrt: real -> real, s: Setting, plains: seq<Plain>, reported: bool)
    requires plains != []
    ensures multiset(Chosen(sqrt, s, plains, reported)) == multiset(Chosen(sqrt, s, plains[1..], reported))
         + if IsReported(sqrt, s, plains[0]) == reported then multiset{plains[0]} else multiset{}
  {
  }

  lemma FirstOf(plains: seq<Plain>)
    requires plains != []
    ensures multiset(plains) == multiset{plains[0]} + multiset(plains[1..])
  {
    assert plains == [plains[0]] + plains[1..];
  }

  lemma {:induction false} ChosenPartition(sqrt: real -> real, s: Setting, plains: seq<Plain>)
    ensures multiset(plains) == multiset(Chosen(sqrt, s, plains, true)) + multiset(Chosen(sqrt, s, plains, false))
  {
    if plains != [] {
      ChosenPartition(sqrt, s, plains[1..]);
      ChosenFirst(sqrt, s, plains, true);
      ChosenFirst(sqrt, s, plains, false);
      FirstOf(plains);
    }
  }

  /** When the loop finishes, the plaintexts held before are exactly those reported plus those kept, each group in original order. */
  lemma PlaintextsConserved(sqrt: real -> real, s: Setting, plains: seq<Plain>)
    ensures var r := Check(sqrt, s, plains, [], [], None);
      r.Finished? ==>
        && r.kept == Chosen(sqrt, s, plains, false)
        && PlainsOf(r.reported) == Chosen(sqrt, s, plains, true)
        && multiset(plains) == multiset(PlainsOf(r.reported)) + multiset(r.kept)
  {
    CheckChooses(sqrt, s, plains, [], [], None);
    ChosenPartition(sqrt, s, plains);
    assert [] + Chosen(sqrt, s, plains, false) == Chosen(sqrt, s, plains, false);
    assert [] + Chosen(sqrt, s, plains, true) == Chosen(sqrt, s, plains, true);
  }

  predicate Acceptable(s: Setting, p: Plain) {
    s.recvTss != [] && p.ts >= s.recvTss[0]
  }

  predicate SoughtAmongCipher(s: Setting, p: Plain) {
    s.sendTss != [] && p.ts <= s.sendTss[|s.sendTss| - 1]
  }

  /** The loop finishes exactly when every plaintext is at or after the first ciphertext received, and then
      the records to keep are known exactly when some plaintext is not after the last ciphertext sent. */
  lemma {:induction false} FinishesExactly(sqrt: real -> real, s: Setting, plains: seq<Plain>, reported: seq<Packet>, kept: seq<Plain>,
                                           left: Option<seq<CipherRecord>>)
    ensures var r := Check(sqrt, s, plains, reported, kept, left);
      && (r.Finished? <==> forall i :: 0 <= i < |plains| ==> Acceptable(s, plains[i]))
      && (r.Finished? ==> (r.left.Some? <==> left.Some? || exists i :: 0 <= i < |plains| && SoughtAmongCipher(s, plains[i])))
    decreases |plains|
  {
    if plains != [] {
      var v := Examine(sqrt, s, plains[0]);
      assert v.Refused? <==> !Acceptable(s, plains[0]);
      if !v.Refused? {
        FinishesExactly(sqrt, s, plains[1..], reported + ReportedBy(v), kept + KeptBy(v, plains[0]), LeftOf(v, left));
        assert forall i :: 0 < i < |plains| ==> plains[i] == plains[1..][i - 1];
        assert forall i :: 0 <= i < |plains[1..]| ==> plains[1..][i] == plains[i + 1];
      }
    }
  }

  /** When a plaintext is refused, it and the plaintexts kept before it are lost: what is left is what was not examined. */
  lemma {:induction false} RefusalLoses(sqrt: real -> real, s: Setting, plains: seq<Plain>, i: nat, reported: seq<Packet>, kept: seq<Plain>,
                                        left: Option<seq<CipherRecord>>)
    requires i < |plains| && !Acceptable(s, plains[i]) && forall j :: 0 <= j < i ==> Acceptable(s, plains[j])
    ensures var r := Check(sqrt, s, plains, reported, kept, left);
      && r.Aborted? && r.unread == plains[i + 1..]
      && PlainsOf(r.reported) == PlainsOf(reported) + Chosen(sqrt, s, plains[..i], true)
    decreases |plains|
  {
    if i == 0 {
      assert plains[..0] == [] && PlainsOf(reported) + [] == PlainsOf(reported);
    } else {
      var v := Examine(sqrt, s, plains[0]);
      RefusalLoses(sqrt, s, plains[1..], i - 1, reported + ReportedBy(v), kept + KeptBy(v, plains[0]), LeftOf(v, left));
      assert plains[1..][i..] == plains[i + 1..];
      FirstChosen(sqrt, s, plains, i, reported);
    }
  }

  lemma FirstChosen(sqrt: real -> real, s: Setting, plains: seq<Plain>, i: nat, reported: seq<Packet>)
    requires 0 < i <= |plains|
    ensures PlainsOf(reported) + Chosen(sqrt, s, plains[..i], true)
         == PlainsOf(reported + ReportedBy(Examine(sqrt, s, plains[0]))) + Chosen(sqrt, s, plains[1..][..i - 1], true)
  {
    var v := Examine(sqrt, s, plains[0]);
    assert plains[..i][1..] == plains[1..][..i - 1];
    PlainsOfAppend(reported, ReportedBy(v));
    assert PlainsOf(ReportedBy(v)) == if v.Matched? then [plains[0]] else [];
    Associative(PlainsOf(reported), PlainsOf(ReportedBy(v)), Chosen(sqrt, s, plains[1..][..i - 1], true));
  }

  // ----- times and delays -----

  lemma {:induction false} LastBeforeIs(tss: seq<real>, ts: real)
    ensures LastBefore(tss, ts).Some? ==> LastBefore(tss, ts).value in tss && LastBefore(tss, ts).value < ts
  {
    if tss != [] {
      LastBeforeIs(tss[1..], ts);
    }
  }

  lemma {:induction false} FirstAfterIs(tss: seq<real>, ts: real)
    ensures FirstAfter(tss, ts).Some? ==> FirstAfter(tss, ts).value in tss && FirstAfter(tss, ts).value > ts
  {
    if tss != [] {
      FirstAfterIs(tss[1..], ts);
    }
  }

  ghost predicate IsSqrt(sqrt: real -> real) {
    forall x :: x >= 0.0 ==> sqrt(x) >= 0.0 && sqrt(x) * sqrt(x) == x
  }

  lemma MulLess(a: real, b: real, c: real, d: real)
    requires 0.0 <= a <= c && 0.0 <= b <= d
    ensures a * b <= c * d
  {
    assert (c - a) * b >= 0.0;
    assert c * (d - b) >= 0.0;
  }

  lemma SqrtMonotone(sqrt: real -> real, x: real, y: real)
    requires IsSqrt(sqrt) && 0.0 <= x < y
    ensures sqrt(x) < sqrt(y)
  {
    if sqrt(y) <= sqrt(x) {
      MulLess(sqrt(y), sqrt(y), sqrt(x), sqrt(x));
    }
  }

  lemma SqrtOf100(sqrt: real -> real)
    requires IsSqrt(sqrt)
    ensures sqrt(100.0) == 10.0
  {
    var r := sqrt(100.0);
    if r < 10.0 {
      MulLess(r, r, 10.0, r);
    } else if r > 10.0 {
      MulLess(10.0, r, r, r);
    }
  }

  /** The delay of a positive gap is positive and at most the gap. */
  lemma DelayBounds(sqrt: real -> real, gapMs: real)
    requires IsSqrt(sqrt) && gapMs > 0.0
    ensures 0.0 < Delay(sqrt, gapMs) <= gapMs
  {
    if gapMs > 100.0 {
      SqrtOf100(sqrt);
      SqrtMonotone(sqrt, 100.0, gapMs);
      var r := sqrt(gapMs);
      MulLess(r, 10.0, r, r);
    }
  }

  /** A longer gap has a longer delay. */
  lemma DelayMonotone(sqrt: real -> real, a: real, b: real)
    requires IsSqrt(sqrt) && 0.0 < a < b
    ensures Delay(sqrt, a) < Delay(sqrt, b)
  {
    if b > 100.0 {
      SqrtOf100(sqrt);
      if a > 100.0 {
        SqrtMonotone(sqrt, a, b);
      } else {
        SqrtMonotone(sqrt, 100.0, b);
      }
    }
  }

  /** A reported packet has recorded ciphertext strictly before and strictly after its plaintext, and its
      delay is made from the gap between them, positive and at most that gap in milliseconds. */
  ghost predicate Around(sqrt: real -> real, s: Setting, packet: Packet) {
    exists start, end :: start in s.recvTss && end in s.sendTss && Encloses(sqrt, packet, start, end)
  }

  predicate Encloses(sqrt: real -> real, packet: Packet, start: real, end: real) {
    && start < packet.timestamp < end
    && packet.delay == Delay(sqrt, (end - start) * 1000.0)
    && 0.0 < packet.delay <= (end - start) * 1000.0
  }

  lemma MatchedIsAround(sqrt: real -> real, s: Setting, p: Plain)
    requires IsSqrt(sqrt) && IsReported(sqrt, s, p)
    ensures Around(sqrt, s, Examine(sqrt, s, p).packet)
  {
    var start, end := LastBefore(s.recvTss, p.ts).value, FirstAfter(s.sendTss, p.ts).value;
    LastBeforeIs(s.recvTss, p.ts);
    FirstAfterIs(s.sendTss, p.ts);
    DelayBounds(sqrt, (end - start) * 1000.0);
    assert Encloses(sqrt, Examine(sqrt, s, p).packet, start, end);
  }

  ghost predicate AllAround(sqrt: real -> real, s: Setting, packets: seq<Packet>) {
    forall i :: 0 <= i < |packets| ==> Around(sqrt, s, packets[i])
  }

  lemma {:induction false} ReportedAreAround(sqrt: real -> real, s: Setting, plains: seq<Plain>, reported: seq<Packet>, kept: seq<Plain>,
                                             left: Option<seq<CipherRecord>>)
    requires IsSqrt(sqrt) && AllAround(sqrt, s, reported)
    ensures AllAround(sqrt, s, Check(sqrt, s, plains, reported, kept, left).reported)
    decreases |plains|
  {
    if plains != [] {
      var v := Examine(sqrt, s, plains[0]);
      CheckStep(sqrt, s, plains, reported, kept, left);
      if v.Matched? {
        MatchedIsAround(sqrt, s, plains[0]);
        var more := reported + [v.packet];
        assert forall i :: 0 <= i < |more| ==> more[i] == if i < |reported| then reported[i] else v.packet;
        ReportedAreAround(sqrt, s, plains[1..], more, kept, Some(v.left));
      } else if !v.Refused? {
        ReportedAreAround(sqrt, s, plains[1..], reported, kept + [plains[0]], LeftOf(v, left));
      }
    }
  }

  // ----- which plaintexts are reported, and as what -----

  /** The first i elements are all before `ts`, and the next one is not. */
  predicate LeadingBefore(tss: seq<real>, ts: real, i: nat) {
    i <= |tss| && (forall l :: 0 <= l < i ==> tss[l] < ts) && (i < |tss| ==> tss[i] >= ts)
  }

  /** The first j elements are not after `ts`, and the next one is. */
  predicate LeadingUpTo(tss: seq<real>, ts: real, j: nat) {
    j <= |tss| && (forall l :: 0 <= l < j ==> tss[l] <= ts) && (j < |tss| ==> tss[j] > ts)
  }

  /** None of the first k records lies between the two timestamps, and the next one does. */
  predicate LeadingOutside(records: seq<CipherRecord>, start: real, end: real, k: nat) {
    && k <= |records| && (forall l :: 0 <= l < k ==> !(start <= records[l].ts <= end))
    && (k < |records| ==> start <= records[k].ts <= end)
  }

  lemma {:induction false} LastBeforeAt(tss: seq<real>, ts: real, i: nat)
    requires LeadingBefore(tss, ts, i)
    ensures LastBefore(tss, ts) == if i == 0 then None else Some(tss[i - 1])
    decreases |tss|
  {
    if i > 0 {
      LastBeforeAt(tss[1..], ts, i - 1);
    }
  }

  lemma {:induction false} FirstAfterAt(tss: seq<real>, ts: real, j: nat)
    requires LeadingUpTo(tss, ts, j)
    ensures FirstAfter(tss, ts) == if j == |tss| then None else Some(tss[j])
    decreases |tss|
  {
    if j > 0 {
      FirstAfterAt(tss[1..], ts, j - 1);
    }
  }

  lemma {:induction false} FindCipherAt(records: seq<CipherRecord>, start: real, end: real, k: nat)
    requires LeadingOutside(records, start, end, k) && start != 0.0 && end != 0.0
    ensures FindCipher(records, Some(start), Some(end)) == (if k == |records| then None else Some(records[k].payload), records[..k])
    decreases |records|
  {
    if k > 0 {
      FindCipherAt(records[1..], start, end, k - 1);
      assert records[..k] == [records[0]] + records[1..][..k - 1];
    }
  }

  lemma {:induction false} FindNothing(records: seq<CipherRecord>, start: Option<real>, end: Option<real>)
    requires !Truthy(start) || !Truthy(end)
    ensures FindCipher(records, start, end) == (None, records)
    decreases |records|
  {
    if records != [] {
      FindNothing(records[1..], start, end);
      assert [records[0]] + records[1..] == records;
    }
  }

  /** What becomes of an acceptable plaintext: with i ciphertexts received before it, and j of those sent not after it, it is
      reported exactly when it is not after the last one sent, i is not 0, something was sent after it, and neither of
      these two timestamps is 0; and the packet carries its bytes, the delay made from the gap between the two, and the
      first ciphertext recorded between them. The records before that one are kept, and all if there is none. */
  lemma ReportedExactly(sqrt: real -> real, s: Setting, p: Plain, i: nat, j: nat, k: nat)
    requires Acceptable(s, p) && LeadingBefore(s.recvTss, p.ts, i) && LeadingUpTo(s.sendTss, p.ts, j)
    requires 0 < i && j < |s.sendTss| ==> LeadingOutside(s.records, s.recvTss[i - 1], s.sendTss[j], k)
    ensures var v := Examine(sqrt, s, p);
      && (v.Matched? <==> SoughtAmongCipher(s, p) && 0 < i && j < |s.sendTss| && s.recvTss[i - 1] != 0.0 && s.sendTss[j] != 0.0)
      && (v.Unmatched? <==> SoughtAmongCipher(s, p) && !v.Matched?)
      && (v.Unmatched? ==> v.left == s.records)
      && (v.Matched? ==>
            var gap := (s.sendTss[j] - s.recvTss[i - 1]) * 1000.0;
            && v.packet == Packet(s.info, s.toIp, s.toPort, p.data, |p.data|, if gap > 100.0 then sqrt(gap) * 10.0 else gap, p.ts,
                                  if k < |s.records| then Some(s.records[k].payload) else None)
            && v.left == s.records[..k])
  {
    LastBeforeAt(s.recvTss, p.ts, i);
    FirstAfterAt(s.sendTss, p.ts, j);
    var start, end := LastBefore(s.recvTss, p.ts), FirstAfter(s.sendTss, p.ts);
    if Truthy(start) && Truthy(end) {
      FindCipherAt(s.records, start.value, end.value, k);
    } else {
      FindNothing(s.records, start, end);
    }
  }

  /** The records that are kept in the end are those of the last plaintext that was looked for: what earlier ones took is back. */
  lemma {:induction false} KeepsLast(sqrt: real -> real, s: Setting, plains: seq<Plain>, i: nat, reported: seq<Packet>, kept: seq<Plain>,
                                     left: Option<seq<CipherRecord>>)
    requires i < |plains| && SoughtAmongCipher(s, plains[i]) && forall j :: i < j < |plains| ==> !SoughtAmongCipher(s, plains[j])
    requires forall j :: 0 <= j < |plains| ==> Acceptable(s, plains[j])
    ensures Check(sqrt, s, plains, reported, kept, left).Finished?
    ensures Check(sqrt, s, plains, reported, kept, left).left == LeftOf(Examine(sqrt, s, plains[i]), None)
    decreases |plains|
  {
    var v := Examine(sqrt, s, plains[0]);
    if i == 0 {
      KeepsUnsought(sqrt, s, plains[1..], reported + ReportedBy(v), kept + KeptBy(v, plains[0]), LeftOf(v, left));
    } else {
      KeepsLast(sqrt, s, plains[1..], i - 1, reported + ReportedBy(v), kept + KeptBy(v, plains[0]), LeftOf(v, left));
    }
  }

  lemma {:induction false} KeepsUnsought(sqrt: real -> real, s: Setting, plains: seq<Plain>, reported: seq<Packet>, kept: seq<Plain>,
                                         left: Option<seq<CipherRecord>>)
    requires forall j :: 0 <= j < |plains| ==> Acceptable(s, plains[j]) && !SoughtAmongCipher(s, plains[j])
    ensures Check(sqrt, s, plains, reported, kept, left).Finished? && Check(sqrt, s, plains, reported, kept, left).left == left
    decreases |plains|
  {
    if plains != [] {
      var v := Examine(sqrt, s, plains[0]);
      KeepsUnsought(sqrt, s, plains[1..], reported + ReportedBy(v), kept + KeptBy(v, plains[0]), LeftOf(v, left));
    }
  }
}
