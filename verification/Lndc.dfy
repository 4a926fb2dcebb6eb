/** The objects of lndc/noise.go and lndc/conn.go, updated in place, proved against the
    functions in Noise and Transport. */
module Lndc {
  import opened Wrappers
  import opened Numbers
  import opened Noise
  import opened NoiseSecrets
  import opened Transport

  class CipherState {
    var nonce: nat
    var secretKey: Term
    var salt: Term

    ghost function Value(): CipherVal
      reads this
    {
      CipherVal(nonce, secretKey, salt)
    }

    constructor ()
      ensures Value() == CipherVal(0, Zero, Zero)
    {
      nonce, secretKey, salt := 0, Zero, Zero;
    }

    method InitializeKey(key: Term)
      modifies this
      ensures Value() == CipherVal(0, key, old(salt))
    {
      secretKey := key;
      nonce := 0;
    }

    method InitializeKeyWithSalt(newSalt: Term, key: Term)
      modifies this
      ensures Value() == CipherVal(0, key, newSalt)
    {
      salt := newSalt;
      InitializeKey(key);
    }

    method RotateKey()
      modifies this
      ensures Value() == Rotated(old(Value()))
    {
      var oldKey, oldSalt := secretKey, salt;
      salt := FirstHalf(oldSalt, oldKey);
      var nextKey := SecondHalf(oldSalt, oldKey);
      InitializeKey(nextKey);
    }

    method Advance()
      modifies this
      ensures Value() == Bump(old(Value()))
    {
      nonce := nonce + 1;
      if nonce == KEY_ROTATION_INTERVAL {
        RotateKey();
      }
    }

    method Encrypt(ad: Term, plain: Plain) returns (c: Cipher)
      modifies this
      ensures c == Seal(old(Value()), ad, plain) && Value() == Bump(old(Value()))
    {
      c := Sealed(secretKey, nonce, ad, plain);
      Advance();
    }

    /** What the text holds, if it opens under the next nonce; the nonce stays. */
    method Peek(ad: Term, c: Cipher) returns (r: Option<Plain>)
      ensures r == Open(Value(), ad, c)
    {
      r := if c.key == secretKey && c.nonce == nonce && c.ad == ad then Some(c.plain) else None;
    }

    /** The nonce moves on whether or not the text opens. */
    method Decrypt(ad: Term, c: Cipher) returns (r: Option<Plain>)
      modifies this
      ensures r == Open(old(Value()), ad, c) && Value() == Bump(old(Value()))
    {
      r := None;
      if c.key == secretKey && c.nonce == nonce && c.ad == ad {
        r := Some(c.plain);
      }
      Advance();
    }
  }

  class Machine {
    const initiator: bool
    const localStatic: nat
    const cipher: CipherState
    const sendCipher: CipherState
    const recvCipher: CipherState
    var localEphemeral: nat
    var remoteStatic: Term
    var remoteEphemeral: Term
    var chainingKey: Term
    var tempKey: Term
    var handshakeDigest: Term

    predicate Valid() {
      cipher != sendCipher && cipher != recvCipher && sendCipher != recvCipher
    }

    ghost function Handshake(): Hs
      reads this, cipher
    {
      Hs(cipher.Value(), chainingKey, tempKey, handshakeDigest)
    }

    ghost function Value(): MachineVal
      reads this, cipher, sendCipher, recvCipher
    {
      MachineVal(initiator, localStatic, localEphemeral, remoteStatic, remoteEphemeral, Handshake(),
                 sendCipher.Value(), recvCipher.Value())
    }

    constructor (initiator: bool, localStatic: nat)
      ensures Valid() && Value() == NewMachine(initiator, localStatic)
      ensures fresh(cipher) && fresh(sendCipher) && fresh(recvCipher)
    {
      this.initiator, this.localStatic := initiator, localStatic;
      localEphemeral, remoteStatic, remoteEphemeral, tempKey := 0, NoData, NoData, Zero;
      cipher := new CipherState();
      sendCipher := new CipherState();
      recvCipher := new CipherState();
      var digest := HashOf(Text("Noise_XX_secp256k1_ChaChaPoly_SHA256"));
      chainingKey := digest;
      handshakeDigest := Hash(digest, Text("lit"));
    }

    method MixKey(input: Term)
      requires Valid()
      modifies this`chainingKey, this`tempKey, cipher
      ensures Handshake() == Noise.MixKey(old(Handshake()), input)
    {
      var salt := chainingKey;
      chainingKey := FirstHalf(salt, input);
      tempKey := SecondHalf(salt, input);
      cipher.InitializeKey(tempKey);
    }

    method MixHash(data: Term)
      modifies this`handshakeDigest
      ensures Handshake() == Noise.MixHash(old(Handshake()), data)
    {
      handshakeDigest := Hash(handshakeDigest, data);
    }

    method EncryptAndHash(plain: Plain) returns (c: Cipher)
      requires Valid()
      modifies this`handshakeDigest, cipher
      ensures (Handshake(), c) == Noise.EncryptAndHash(old(Handshake()), plain)
    {
      c := cipher.Encrypt(handshakeDigest, plain);
      MixHash(CipherText(c));
    }

    method DecryptAndHash(c: Cipher) returns (r: Option<Plain>)
      requires Valid()
      modifies this`handshakeDigest, cipher
      ensures (Handshake(), r) == Noise.DecryptAndHash(old(Handshake()), c)
    {
      r := cipher.Decrypt(handshakeDigest, c);
      if r.None? {
        return;
      }
      MixHash(CipherText(c));
    }

    method GenActOne(e: nat) returns (act: ActOne)
      requires Valid()
      modifies this, cipher
      ensures (Value(), act) == Noise.GenActOne(old(Value()), e)
    {
      localEphemeral := e;
      MixHash(Public(e));
      var payload := EncryptAndHash(Data([]));
      act := ActOne(HANDSHAKE_VERSION, Public(e), payload);
    }

    method RecvActOne(act: ActOne) returns (ok: bool)
      requires Valid()
      modifies this, cipher
      ensures ok == Noise.RecvActOne(old(Value()), act).Some?
      ensures ok ==> Value() == Noise.RecvActOne(old(Value()), act).value
    {
      if act.version != HANDSHAKE_VERSION {
        return false;
      }
      if !act.e.Public? {
        return false;
      }
      remoteEphemeral := act.e;
      MixHash(remoteEphemeral);
      var plain := DecryptAndHash(act.payload);
      ok := plain.Some?;
    }

    method GenActTwo(e: nat) returns (act: ActTwo)
      requires Valid()
      modifies this, cipher
      ensures (Value(), act) == Noise.GenActTwo(old(Value()), e)
    {
      localEphemeral := e;
      MixHash(Public(e));
      var ee := Ecdh(remoteEphemeral, localEphemeral);
      MixKey(ee);
      var s := Public(localStatic);
      MixHash(s);
      var es := Ecdh(remoteEphemeral, localStatic);
      MixKey(es);
      var payload := EncryptAndHash(Data([]));
      act := ActTwo(HANDSHAKE_VERSION, Public(e), s, payload);
    }

    method RecvActTwo(act: ActTwo) returns (ok: bool)
      requires Valid()
      modifies this, cipher
      ensures ok == Noise.RecvActTwo(old(Value()), act).Some?
      ensures ok ==> Value() == Noise.RecvActTwo(old(Value()), act).value
    {
      if act.version != HANDSHAKE_VERSION {
        return false;
      }
      if !act.e.Public? {
        return false;
      }
      remoteEphemeral := act.e;
      MixHash(remoteEphemeral);
      var ee := Ecdh(remoteEphemeral, localEphemeral);
      MixKey(ee);
      if !act.s.Public? {
        return false;
      }
      remoteStatic := act.s;
      MixHash(remoteStatic);
      var es := Ecdh(remoteStatic, localEphemeral);
      MixKey(es);
      var plain := DecryptAndHash(act.payload);
      ok := plain.Some?;
    }

    method GenActThree() returns (act: ActThree)
      requires Valid()
      modifies this, cipher, sendCipher, recvCipher
      ensures (Value(), act) == Noise.GenActThree(old(Value()))
    {
      var encryptedS := EncryptAndHash(Static(Public(localStatic)));
      var se := Ecdh(remoteEphemeral, localStatic);
      MixKey(se);
      var payload := EncryptAndHash(Data([]));
      act := ActThree(HANDSHAKE_VERSION, encryptedS, payload);
      Split();
    }

    method RecvActThree(act: ActThree) returns (ok: bool)
      requires Valid()
      modifies this, cipher, sendCipher, recvCipher
      ensures ok == Noise.RecvActThree(old(Value()), act).Some?
      ensures ok ==> Value() == Noise.RecvActThree(old(Value()), act).value
    {
      if act.version != HANDSHAKE_VERSION {
        return false;
      }
      var s := DecryptAndHash(act.s);
      if s.None? {
        return false;
      }
      if !s.value.Static? || !s.value.key.Public? {
        return false;
      }
      remoteStatic := s.value.key;
      var se := Ecdh(remoteStatic, localEphemeral);
      MixKey(se);
      var plain := DecryptAndHash(act.payload);
      if plain.None? {
        return false;
      }
      Split();
      ok := true;
    }

    method Split()
      requires Valid()
      modifies sendCipher, recvCipher
      ensures Value() == Noise.Split(old(Value()))
    {
      var first := FirstHalf(chainingKey, NoData);
      var second := SecondHalf(chainingKey, NoData);
      if initiator {
        sendCipher.InitializeKeyWithSalt(chainingKey, first);
        recvCipher.InitializeKeyWithSalt(chainingKey, second);
      } else {
        recvCipher.InitializeKeyWithSalt(chainingKey, first);
        sendCipher.InitializeKeyWithSalt(chainingKey, second);
      }
    }

    /** Append one record to the wire; longer messages are refused. */
    method WriteMessage(wire: seq<WireByte>, p: seq<byte>) returns (ok: bool, wire': seq<WireByte>)
      modifies sendCipher
      ensures ok == (|p| <= MAX_UINT16)
      ensures ok ==> wire' == wire + Record(old(sendCipher.Value()), p) && sendCipher.Value() == Next(old(sendCipher.Value()))
      ensures !ok ==> wire' == wire && sendCipher.Value() == old(sendCipher.Value())
    {
      wire' := wire;
      if |p| > MAX_UINT16 {
        return false, wire';
      }
      var pktLen := BigEndian(|p|, 2);
      var cipherLen := sendCipher.Encrypt(NoData, Data(pktLen));
      wire' := wire' + Bytes(cipherLen);
      var cipherText := sendCipher.Encrypt(NoData, Data(p));
      wire' := wire' + Bytes(cipherText);
      ok := true;
    }

    /** Take one record off the wire, unless it has not arrived in full. */
    method ReadMessage(wire: seq<WireByte>) returns (r: Reception)
      modifies recvCipher
      ensures r == Transport.ReadMessage(old(recvCipher.Value()), wire)
      ensures r.Got? ==> recvCipher.Value() == r.recv
      ensures r.Blocked? ==> recvCipher.Value() == old(recvCipher.Value())
    {
      hide Bytes, Assembled, FromBigEndian;
      if |wire| < HEADER {
        return Blocked;
      }
      var header := Assembled(wire[..HEADER]);
      if header.None? {
        return Failed;
      }
      // the call waits for the rest of the record, and takes nothing until it is there
      var peeked := recvCipher.Peek(NoData, header.value);
      if peeked.Some? && peeked.value.Data? && |wire| - HEADER < FromBigEndian(peeked.value.bytes) + MAC_SIZE {
        return Blocked;
      }
      var length := recvCipher.Decrypt(NoData, header.value);
      if length.None? || !length.value.Data? {
        return Failed;
      }
      var pktLen := FromBigEndian(length.value.bytes) + MAC_SIZE;
      var body := Assembled(wire[HEADER..HEADER + pktLen]);
      if body.None? {
        return Failed;
      }
      var plain := recvCipher.Decrypt(NoData, body.value);
      if plain.None? || !plain.value.Data? {
        return Failed;
      }
      r := Got(CipherVal(recvCipher.nonce, recvCipher.secretKey, recvCipher.salt), wire[HEADER + pktLen..], plain.value.bytes);
    }
  }

  /** Dial and accept, with every act delivered unchanged.  The dialer goes on to act three
      only if the key it has met hashes to the address it was given.  Then both machines end
      finished and mirrored; otherwise the listener never gets its keys. */
  method RunHandshake(i: Machine, r: Machine, ei: nat, er: nat, remotePKH: Term) returns (ok: bool)
    requires i.Valid() && r.Valid() && i != r
    requires {i.cipher, i.sendCipher, i.recvCipher} !! {r.cipher, r.sendCipher, r.recvCipher}
    requires i.Value() == NewMachine(true, i.localStatic) && r.Value() == NewMachine(false, r.localStatic)
    modifies i, i.cipher, i.sendCipher, i.recvCipher, r, r.cipher, r.sendCipher, r.recvCipher
    ensures ok <==> remotePKH == HashOf(Public(r.localStatic))
    ensures ok ==> Mirrored(i.Value(), r.Value())
    ensures ok ==> forall owned ::
      (Computable(i.Value().send.key, owned, {}) <==> HasOneOfEach(i.localStatic, r.localStatic, ei, er, owned))
    ensures !ok ==> r.Value().send == r.Value().recv == NewMachine(false, r.localStatic).send
  {
    hide Noise.GenActOne, Noise.RecvActOne, Noise.GenActTwo, Noise.RecvActTwo, Noise.GenActThree, Noise.RecvActThree,
         Mirrored;
    HandshakeMirrors(i.localStatic, r.localStatic, ei, er);
    TwoActs(i.localStatic, r.localStatic, ei, er);
    FinishesSecret(i.localStatic, r.localStatic, ei, er);
    var one := i.GenActOne(ei);
    ok := r.RecvActOne(one);
    var two := r.GenActTwo(er);
    ok := i.RecvActTwo(two);
    if HashOf(i.remoteStatic) != remotePKH {
      return false;
    }
    var three := i.GenActThree();
    ok := r.RecvActThree(three);
  }

  /** The dialer's keys after three acts can be computed only by owners of private keys. */
  lemma FinishesSecret(si: nat, sr: nat, ei: nat, er: nat)
    ensures var (i1, one) := Noise.GenActOne(NewMachine(true, si), ei);
      var r1 := Noise.RecvActOne(NewMachine(false, sr), one);
      && r1.Some?
      && var (r2, two) := Noise.GenActTwo(r1.value, er);
         var i2 := Noise.RecvActTwo(i1, two);
      && i2.Some?
      && forall owned ::
           (Computable(Noise.GenActThree(i2.value).0.send.key, owned, {}) <==> HasOneOfEach(si, sr, ei, er, owned))
  {
    hide Noise.GenActOne, Noise.RecvActOne, Noise.GenActTwo, Noise.RecvActTwo, Noise.GenActThree, NewMachine, Computable;
    SessionSecret(si, sr, ei, er, {});
    forall owned ensures var m := Finished(si, sr, ei, er);
      m.Some? && (Computable(m.value.send.key, owned, {}) <==> HasOneOfEach(si, sr, ei, er, owned))
    {
      SessionSecret(si, sr, ei, er, owned);
    }
  }

  /** After two acts the dialer knows the listener's key, and the listener has not yet
      made the keys of the connection. */
  lemma TwoActs(si: nat, sr: nat, ei: nat, er: nat)
    ensures var (i1, one) := Noise.GenActOne(NewMachine(true, si), ei);
      var r1 := Noise.RecvActOne(NewMachine(false, sr), one);
      && r1.Some?
      && var (r2, two) := Noise.GenActTwo(r1.value, er);
         var i2 := Noise.RecvActTwo(i1, two);
      && r2.send == r2.recv == NewMachine(false, sr).send
      && (i2.Some? ==> i2.value.remoteStatic == Public(sr))
  {}

  /** One direction of the link between two connections. */
  class Pipe {
    var data: seq<WireByte>

    constructor ()
      ensures data == []
    {
      data := [];
    }
  }

  datatype Status = Ok | Eof | Error | WouldBlock

  class Conn {
    const noise: Machine
    const outbound: Pipe
    const inbound: Pipe
    var readBuf: seq<byte>

    predicate Valid() {
      noise.Valid() && outbound != inbound
    }

    /** What this end receives, as a stream with nothing read from it yet. */
    ghost function Incoming(): Stream
      reads this, noise.recvCipher, inbound
    {
      var v := noise.recvCipher.Value();
      Stream(v, inbound.data, v, readBuf, [], [], false, false)
    }

    constructor (noise: Machine, outbound: Pipe, inbound: Pipe)
      requires noise.Valid() && outbound != inbound
      ensures Valid() && this.noise == noise && this.outbound == outbound && this.inbound == inbound && readBuf == []
    {
      this.noise, this.outbound, this.inbound, readBuf := noise, outbound, inbound, [];
    }

    method Write(b: seq<byte>) returns (n: nat)
      requires Valid()
      modifies noise.sendCipher, outbound
      ensures n == |b|
      ensures outbound.data == old(outbound.data) + WireOf(old(noise.sendCipher.Value()), Chunks(b))
      ensures noise.sendCipher.Value() == Later(old(noise.sendCipher.Value()), |Chunks(b)|)
    {
      hide Record, Next, WireOf, Later, Chunks;
      assert b[0..] == b;
      if |b| <= MAX_UINT16 {
        var ok, wire := noise.WriteMessage(outbound.data, b);
        outbound.data := wire;
        OneRecord(old(noise.sendCipher.Value()), b);
        return |b|;
      }
      var chunkSize := MAX_UINT16;
      n := 0;
      while n < |b|
        invariant n <= |b| && 0 < chunkSize <= MAX_UINT16 && (n < |b| ==> chunkSize == MAX_UINT16)
        invariant old(outbound.data) + WireOf(old(noise.sendCipher.Value()), Chunks(b))
               == outbound.data + if n == |b| then [] else WireOf(noise.sendCipher.Value(), Chunks(b[n..]))
        invariant Later(old(noise.sendCipher.Value()), |Chunks(b)|)
               == if n == |b| then noise.sendCipher.Value() else Later(noise.sendCipher.Value(), |Chunks(b[n..])|)
      {
        ghost var v := noise.sendCipher.Value();
        if n + chunkSize > |b| {
          chunkSize := |b| - n;
        }
        var chunk := b[n..n + chunkSize];
        NextChunk(v, b[n..], chunk);
        assert b[n..][|chunk|..] == b[n + |chunk|..];
        var ok, wire := noise.WriteMessage(outbound.data, chunk);
        outbound.data := wire;
        n := n + |chunk|;
      }
    }

    method Read(n: nat) returns (got: seq<byte>, status: Status)
      requires Valid()
      modifies this, noise.recvCipher, inbound
      ensures var s := AfterRead(old(Incoming()), n);
        && (status == Error <==> s.failed)
        && (!s.failed ==>
              && got == s.read && (status == Eof <==> s.eof)
              && noise.recvCipher.Value() == s.recv && inbound.data == s.wire && readBuf == s.readBuf)
    {
      hide Transport.ReadMessage;
      got := [];
      if |readBuf| == 0 {
        var r := noise.ReadMessage(inbound.data);
        if r.Blocked? {
          return [], WouldBlock;
        }
        if r.Failed? {
          return [], Error;
        }
        inbound.data := r.rest;
        readBuf := r.plain;
      }
      if |readBuf| == 0 {
        status := if n > 0 then Eof else Ok;
        return;
      }
      var k := if n < |readBuf| then n else |readBuf|;
      got := readBuf[..k];
      readBuf := readBuf[k..];
      status := Ok;
    }
  }

  lemma OneRecord(v: CipherVal, b: seq<byte>)
    requires |b| <= MAX_UINT16
    ensures WireOf(v, Chunks(b)) == Record(v, b) && Later(v, |Chunks(b)|) == Next(v)
  {}

  /** The next chunk of a long write, and what comes after it. */
  lemma NextChunk(v: CipherVal, b: seq<byte>, chunk: seq<byte>)
    requires b != [] && chunk == b[..if |b| < MAX_UINT16 then |b| else MAX_UINT16]
    ensures WireOf(v, Chunks(b)) == Record(v, chunk) + if |chunk| == |b| then [] else WireOf(Next(v), Chunks(b[|chunk|..]))
    ensures Later(v, |Chunks(b)|) == if |chunk| == |b| then Next(v) else Later(Next(v), |Chunks(b[|chunk|..])|)
  {
    hide Record, Next;
    if |b| <= MAX_UINT16 {
      assert chunk == b;
      OneRecord(v, b);
    } else {
      var rest := Chunks(b[MAX_UINT16..]);
      assert Chunks(b) == [chunk] + rest;
      assert ([chunk] + rest)[1..] == rest;
    }
  }
}
