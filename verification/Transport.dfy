/** Bytes through an encrypted connection (lndc/noise.go:638-700, lndc/conn.go:120-176):
    records with a sealed length in front, chunked writes and buffered reads. */
module Transport {
  import opened Wrappers
  import opened Numbers
  import opened Noise

  const HEADER: nat := 18

  /** A byte on the wire: it belongs to a sealed text, at a position. */
  datatype WireByte = WireByte(c: Cipher, at: nat)

  function Length(c: Cipher): nat {
    MAC_SIZE + if c.plain.Data? then |c.plain.bytes| else 33
  }

  function Bytes(c: Cipher): (r: seq<WireByte>)
    ensures |r| == Length(c)
  {
    seq(Length(c), i requires 0 <= i => WireByte(c, i))
  }

  /** The sealed text these bytes are, if they are exactly one. */
  function Assembled(b: seq<WireByte>): (r: Option<Cipher>) {
    if b != [] && b == Bytes(b[0].c) then Some(b[0].c) else None
  }

  lemma BytesAssemble(c: Cipher)
    ensures Assembled(Bytes(c)) == Some(c)
  {
    assert Bytes(c)[0].c == c;
  }

  // ---------------------------------------------------------------- records

  function Header(v: CipherVal, p: seq<byte>): Cipher {
    Seal(v, NoData, Data(BigEndian(|p|, 2)))
  }

  function Body(v: CipherVal, p: seq<byte>): Cipher {
    Seal(Bump(v), NoData, Data(p))
  }

  /** One message on the wire: its length, then itself, both sealed. */
  function Record(v: CipherVal, p: seq<byte>): seq<WireByte> {
    Bytes(Header(v, p)) + Bytes(Body(v, p))
  }

  function Next(v: CipherVal): CipherVal {
    Bump(Bump(v))
  }

  datatype Reception = Blocked | Failed | Got(recv: CipherVal, rest: seq<WireByte>, plain: seq<byte>)

  /** Read one message.  Blocked means that the call waits for more bytes. */
  function ReadMessage(v: CipherVal, wire: seq<WireByte>): Reception {
    if |wire| < HEADER then Blocked
    else
      var header := Assembled(wire[..HEADER]);
      if header.None? then Failed
      else
        var length := Open(v, NoData, header.value);
        if length.None? || !length.value.Data? then Failed
        else
          var pktLen := FromBigEndian(length.value.bytes) + MAC_SIZE;
          if |wire| - HEADER < pktLen then Blocked
          else
            var body := Assembled(wire[HEADER..HEADER + pktLen]);
            if body.None? then Failed
            else
              var plain := Open(Bump(v), NoData, body.value);
              if plain.None? || !plain.value.Data? then Failed
              else Got(Next(v), wire[HEADER + pktLen..], plain.value.bytes)
  }

  /** A record is read back whole, whatever follows it. */
  lemma RecordReads(v: CipherVal, p: seq<byte>, more: seq<WireByte>)
    requires |p| <= MAX_UINT16
    ensures ReadMessage(v, Record(v, p) + more) == Got(Next(v), more, p)
  {
    hide Bytes, Assembled, BigEndian;
    var wire := Record(v, p) + more;
    var header, body := Header(v, p), Body(v, p);
    LengthBack(|p|);
    BytesAssemble(header);
    BytesAssemble(body);
    assert wire[..HEADER] == Bytes(header);
    assert wire[HEADER..HEADER + |p| + MAC_SIZE] == Bytes(body);
    assert wire[HEADER + |p| + MAC_SIZE..] == more;
  }

  lemma LengthBack(n: nat)
    requires n <= MAX_UINT16
    ensures FromBigEndian(BigEndian(n, 2)) == n
  {
    BigEndianBack(n, 2);
    assert Pow256(2) == 65536;
  }

  /** A record that was repeated, left out or moved is refused: it opens only at its own
      place in the stream. */
  lemma OutOfOrderFails(v: CipherVal, j: nat, k: nat, p: seq<byte>, more: seq<WireByte>)
    requires v.nonce == 0 && j != k && |p| <= MAX_UINT16
    ensures ReadMessage(After(v, j), Record(After(v, k), p) + more) == Failed
  {
    hide Bytes, Assembled, BigEndian, FromBigEndian, After;
    var at := After(v, k);
    var wire := Record(at, p) + more;
    NoncesUnique(v, j, k);
    BytesAssemble(Header(at, p));
    assert wire[..HEADER] == Bytes(Header(at, p));
  }

  // ---------------------------------------------------------- writing chunks

  /** A write goes out as one record, or as full chunks and a last one. */
  function Chunks(b: seq<byte>): (r: seq<seq<byte>>)
    ensures forall c <- r :: |c| <= MAX_UINT16
    decreases |b|
  {
    if |b| <= MAX_UINT16 then [b] else [b[..MAX_UINT16]] + Chunks(b[MAX_UINT16..])
  }

  function Concat(rs: seq<seq<byte>>): seq<byte> {
    if rs == [] then [] else rs[0] + Concat(rs[1..])
  }

  lemma {:induction false} ChunksWhole(b: seq<byte>)
    ensures Concat(Chunks(b)) == b
    ensures b != [] ==> forall c <- Chunks(b) :: c != []
    decreases |b|
  {
    if |b| <= MAX_UINT16 {
      assert Concat([b]) == b + Concat([]);
    } else {
      ChunksWhole(b[MAX_UINT16..]);
      assert b == b[..MAX_UINT16] + b[MAX_UINT16..];
      assert ([b[..MAX_UINT16]] + Chunks(b[MAX_UINT16..]))[1..] == Chunks(b[MAX_UINT16..]);
    }
  }

  /** All the bytes of a list of records, sealed from state v on. */
  function WireOf(v: CipherVal, rs: seq<seq<byte>>): seq<WireByte>
    decreases |rs|
  {
    if rs == [] then [] else Record(v, rs[0]) + WireOf(Next(v), rs[1..])
  }

  function Later(v: CipherVal, k: nat): CipherVal
    decreases k
  {
    if k == 0 then v else Later(Next(v), k - 1)
  }

  lemma {:induction false} LaterIsAfter(v: CipherVal, k: nat)
    ensures Later(v, k) == After(v, 2 * k)
    decreases k
  {
    if k > 0 {
      LaterIsAfter(Next(v), k - 1);
      AfterShift(v, 2, 2 * k - 2);
      assert After(v, 1) == Bump(After(v, 0));
      assert After(v, 2) == Bump(After(v, 1));
    }
  }

  lemma {:induction false} AfterShift(v: CipherVal, a: nat, b: nat)
    ensures After(After(v, a), b) == After(v, a + b)
    decreases b
  {
    if b > 0 { AfterShift(v, a, b - 1); }
  }

  lemma {:induction false} WireAppend(v: CipherVal, rs: seq<seq<byte>>, more: seq<seq<byte>>)
    ensures WireOf(v, rs + more) == WireOf(v, rs) + WireOf(Later(v, |rs|), more)
    ensures Later(v, |rs + more|) == Later(Later(v, |rs|), |more|)
    ensures Concat(rs + more) == Concat(rs) + Concat(more)
    decreases |rs|
  {
    hide Record, Next;
    if rs == [] {
      assert rs + more == more;
    } else {
      assert (rs + more)[1..] == rs[1..] + more;
      WireAppend(Next(v), rs[1..], more);
    }
  }

  // ------------------------------------------------------------ one direction

  /** The sending cipher, the wire, the receiving cipher and the read buffer, and a
      history: the bytes written and read, and whether a Read has failed or ended. */
  datatype Stream = Stream(send: CipherVal, wire: seq<WireByte>, recv: CipherVal, readBuf: seq<byte>,
                           written: seq<byte>, read: seq<byte>, failed: bool, eof: bool)

  datatype Event = Write(b: seq<byte>) | Read(n: nat)

  function Fresh(v: CipherVal): Stream {
    Stream(v, [], v, [], [], [], false, false)
  }

  function AfterWrite(s: Stream, b: seq<byte>): Stream {
    var rs := Chunks(b);
    s.(send := Later(s.send, |rs|), wire := s.wire + WireOf(s.send, rs), written := s.written + b)
  }

  /** Take at most n bytes out of the buffer; an empty buffer reads as end of file. */
  function Drain(s: Stream, n: nat): Stream {
    if s.readBuf == [] then s.(eof := s.eof || n > 0)
    else
      var k := if n < |s.readBuf| then n else |s.readBuf|;
      s.(read := s.read + s.readBuf[..k], readBuf := s.readBuf[k..])
  }

  function AfterRead(s: Stream, n: nat): Stream {
    if s.readBuf != [] then Drain(s, n)
    else
      match ReadMessage(s.recv, s.wire)
      case Blocked => s
      case Failed => s.(failed := true)
      case Got(recv, rest, plain) => Drain(s.(recv := recv, wire := rest, readBuf := plain), n)
  }

  function Step(s: Stream, e: Event): Stream {
    match e
    case Write(b) => AfterWrite(s, b)
    case Read(n) => AfterRead(s, n)
  }

  function Run(s: Stream, events: seq<Event>): Stream
    decreases |events|
  {
    if events == [] then s else Run(Step(s, events[0]), events[1..])
  }

  // --------------------------------------------------------------- invariant

  /** rs are the records on the wire. */
  ghost predicate Carries(s: Stream, rs: seq<seq<byte>>) {
    && s.wire == WireOf(s.recv, rs) && s.send == Later(s.recv, |rs|)
    && (forall r <- rs :: |r| <= MAX_UINT16)
    && s.written == s.read + s.readBuf + Concat(rs)
    && !s.failed
  }

  lemma WriteCarries(s: Stream, rs: seq<seq<byte>>, b: seq<byte>)
    requires Carries(s, rs)
    ensures Carries(AfterWrite(s, b), rs + Chunks(b))
  {
    hide WireOf, Later, Chunks;
    WireAppend(s.recv, rs, Chunks(b));
    ChunksWhole(b);
  }

  lemma DrainCarries(s: Stream, rs: seq<seq<byte>>, n: nat)
    requires Carries(s, rs)
    ensures Carries(Drain(s, n), rs)
    ensures Drain(s, n).eof == (s.eof || (s.readBuf == [] && n > 0))
  {
    hide WireOf, Later, Concat;
    if s.readBuf != [] {
      Regroup(s.read, s.readBuf, if n < |s.readBuf| then n else |s.readBuf|, Concat(rs));
    }
  }

  lemma Regroup(a: seq<byte>, b: seq<byte>, k: nat, c: seq<byte>)
    requires k <= |b|
    ensures a + b + c == (a + b[..k]) + b[k..] + c
  {
    assert b == b[..k] + b[k..];
  }

  lemma NothingToRead(v: CipherVal)
    ensures ReadMessage(v, WireOf(v, [])) == Blocked
  {}

  /** A Read takes the next record when the buffer is empty.  It ends with EOF exactly
      when that record is empty. */
  lemma ReadCarries(s: Stream, rs: seq<seq<byte>>, n: nat) returns (rs': seq<seq<byte>>)
    requires Carries(s, rs)
    ensures Carries(AfterRead(s, n), rs') && (rs' == rs || (rs != [] && rs' == rs[1..]))
    ensures AfterRead(s, n).eof == (s.eof || (s.readBuf == [] && n > 0 && rs != [] && rs[0] == []))
  {
    hide WireOf, Later, ReadMessage, Drain;
    rs' := rs;
    if s.readBuf != [] {
      DrainCarries(s, rs, n);
    } else if rs == [] {
      NothingToRead(s.recv);
    } else {
      rs' := rs[1..];
      UnpackWire(s.recv, rs);
      RecordReads(s.recv, rs[0], WireOf(Next(s.recv), rs'));
      var t := s.(recv := Next(s.recv), wire := WireOf(Next(s.recv), rs'), readBuf := rs[0]);
      assert Carries(t, rs') by { ConcatHead(s, rs); }
      DrainCarries(t, rs', n);
    }
  }

  lemma UnpackWire(v: CipherVal, rs: seq<seq<byte>>)
    requires rs != []
    ensures WireOf(v, rs) == Record(v, rs[0]) + WireOf(Next(v), rs[1..])
    ensures Later(v, |rs|) == Later(Next(v), |rs[1..]|)
  {}

  lemma ConcatHead(s: Stream, rs: seq<seq<byte>>)
    requires rs != [] && s.readBuf == [] && s.written == s.read + s.readBuf + Concat(rs)
    ensures s.written == s.read + rs[0] + Concat(rs[1..])
  {}

  /** No record on the wire is empty, and nothing has ended. */
  predicate Lively(s: Stream, rs: seq<seq<byte>>) {
    !s.eof && forall r <- rs :: r != []
  }

  lemma {:induction false} RunCarries(s: Stream, rs: seq<seq<byte>>, events: seq<Event>) returns (rs': seq<seq<byte>>)
    requires Carries(s, rs)
    ensures Carries(Run(s, events), rs')
    ensures Lively(s, rs) && (forall e <- events :: e.Write? ==> e.b != []) ==> Lively(Run(s, events), rs')
    decreases |events|
  {
    hide AfterWrite, AfterRead, Carries, Chunks;
    if events == [] {
      rs' := rs;
    } else {
      var e := events[0];
      assert e in events && forall f :: f in events[1..] ==> f in events;
      var next := rs;
      match e {
        case Write(b) =>
          WriteCarries(s, rs, b);
          WriteKeepsEof(s, b);
          ChunksWhole(b);
          next := rs + Chunks(b);
        case Read(n) =>
          next := ReadCarries(s, rs, n);
          assert rs != [] ==> rs[0] in rs;
      }
      if Lively(s, rs) && (forall f <- events :: f.Write? ==> f.b != []) {
        assert e.Write? ==> e.b != [];
        forall r | r in next ensures r != [] {
          if e.Write? { assert r in rs || r in Chunks(e.b); } else { assert r in rs; }
        }
        assert Lively(Step(s, e), next);
      }
      rs' := RunCarries(Step(s, e), next, events[1..]);
    }
  }

  lemma WriteKeepsEof(s: Stream, b: seq<byte>)
    ensures AfterWrite(s, b).eof == s.eof
  {}

  /** For any sequence of Writes at one end and Reads at the other, across any number of
      key rotations: no Read fails, the bytes read are a prefix of the bytes written,
      and once the wire is drained the two ciphers coincide. */
  lemma StreamFaithful(v: CipherVal, events: seq<Event>)
    ensures var s := Run(Fresh(v), events);
      && !s.failed
      && s.read <= s.written
      && (s.wire == [] ==> s.send == s.recv && s.read + s.readBuf == s.written)
      && ((forall e <- events :: e.Write? ==> e.b != []) ==> !s.eof)
  {
    hide WireOf, Run;
    NothingCarried(v);
    var rs := RunCarries(Fresh(v), [], events);
    var s := Run(Fresh(v), events);
    assert s.written == s.read + (s.readBuf + Concat(rs));
    if rs != [] { WireNotEmpty(s.recv, rs); }
  }

  lemma NothingCarried(v: CipherVal)
    ensures Carries(Fresh(v), []) && Lively(Fresh(v), [])
  {}

  lemma WireNotEmpty(v: CipherVal, rs: seq<seq<byte>>)
    requires rs != []
    ensures WireOf(v, rs) != []
  {}

  /** An empty Write makes the Read that takes it end the stream, though more may follow. */
  lemma EmptyWriteEnds(v: CipherVal, n: nat, more: seq<byte>)
    requires n > 0
    ensures Run(Fresh(v), [Write([]), Write(more), Read(n)]).eof
  {
    hide AfterRead, WireOf;
    NothingCarried(v);
    WriteCarries(Fresh(v), [], []);
    var s1 := AfterWrite(Fresh(v), []);
    assert [] + Chunks([]) == [[]];
    WriteCarries(s1, [[]], more);
    var s2 := AfterWrite(s1, more);
    var rs := ReadCarries(s2, [[]] + Chunks(more), n);
    var events := [Write([]), Write(more), Read(n)];
    assert events[1..] == [Write(more), Read(n)] && events[1..][1..] == [Read(n)];
    assert Run(s2, [Read(n)]) == Run(AfterRead(s2, n), []);
  }

  // -------------------------------------------------- no key and nonce twice

  /** Everything sealed for a list of records, in order. */
  function SealedTexts(v: CipherVal, rs: seq<seq<byte>>): (r: seq<Cipher>)
    ensures |r| == 2 * |rs|
    decreases |rs|
  {
    if rs == [] then [] else [Header(v, rs[0]), Body(v, rs[0])] + SealedTexts(Next(v), rs[1..])
  }

  /** The records that the Writes of a run are cut into. */
  function Records(events: seq<Event>): seq<seq<byte>>
    decreases |events|
  {
    if events == [] then []
    else (if events[0].Write? then Chunks(events[0].b) else []) + Records(events[1..])
  }

  /** The i-th text is sealed in the state after i messages. */
  lemma {:induction false} SealedInState(v: CipherVal, rs: seq<seq<byte>>, i: nat)
    requires i < 2 * |rs|
    ensures SealedTexts(v, rs)[i].key == After(v, i).key && SealedTexts(v, rs)[i].nonce == After(v, i).nonce
    decreases |rs|
  {
    hide Bump;
    assert After(v, 1) == Bump(After(v, 0)) && After(v, 2) == Bump(After(v, 1));
    if i >= 2 {
      SealedInState(Next(v), rs[1..], i - 2);
      AfterShift(v, 2, i - 2);
    }
  }

  /** After any run the sending cipher has sealed exactly the records written. */
  lemma {:induction false} SendsRecords(s: Stream, events: seq<Event>)
    ensures Run(s, events).send == Later(s.send, |Records(events)|)
    decreases |events|
  {
    hide AfterWrite, AfterRead, Later, Chunks, WireOf;
    if events == [] {
      LaterNone(s.send);
    } else {
      SendsRecords(Step(s, events[0]), events[1..]);
      match events[0] {
        case Write(b) =>
          WriteSends(s, b);
          WireAppend(s.send, Chunks(b), Records(events[1..]));
        case Read(n) =>
          ReadSends(s, n);
      }
    }
  }

  lemma LaterNone(v: CipherVal)
    ensures Later(v, 0) == v
  {}

  lemma WriteSends(s: Stream, b: seq<byte>)
    ensures AfterWrite(s, b).send == Later(s.send, |Chunks(b)|)
  {}

  lemma ReadSends(s: Stream, n: nat)
    ensures AfterRead(s, n).send == s.send
  {
    hide ReadMessage;
  }

  /** In any run, whatever is written and read, no two texts are sealed under the same
      key and nonce, no nonce reaches the rotation interval, and the cipher ends in the
      state after all of them. */
  lemma NonceUsedOnce(v: CipherVal, events: seq<Event>, i: nat, j: nat)
    requires v.nonce == 0 && i < j < 2 * |Records(events)|
    ensures var texts := SealedTexts(v, Records(events));
      && (texts[i].key != texts[j].key || texts[i].nonce != texts[j].nonce)
      && texts[i].nonce < KEY_ROTATION_INTERVAL
    ensures Run(Fresh(v), events).send == After(v, 2 * |Records(events)|)
  {
    hide After, Run, SealedTexts;
    SealedInState(v, Records(events), i);
    SealedInState(v, Records(events), j);
    NoncesUnique(v, i, j);
    SendsRecords(Fresh(v), events);
    LaterIsAfter(v, |Records(events)|);
  }
}
