/** The encrypted transport (lndc/noise.go) as functions on values: the cipher state
    that rotates its key, the six acts of the handshake, and the split into two ciphers.

    Keys, digests and shared secrets are symbolic terms; a sealed text can be opened
    only with the key, nonce and associated data it was sealed with. */
module Noise {
  import opened Wrappers
  import opened Numbers

  datatype Term =
    | Text(s: string)
    | Zero
    | NoData
    | Public(owner: nat)
    | Shared(a: nat, b: nat)
    | HashOf(t: Term)
    | Hash(before: Term, data: Term)
    | FirstHalf(salt: Term, secret: Term)
    | SecondHalf(salt: Term, secret: Term)
    | CipherText(c: Cipher)

  datatype Plain = Data(bytes: seq<byte>) | Static(key: Term)

  datatype Cipher = Sealed(key: Term, nonce: nat, ad: Term, plain: Plain)

  const KEY_ROTATION_INTERVAL: nat := 1000
  const MAC_SIZE: nat := 16
  const HANDSHAKE_VERSION: nat := 1
  const MAX_UINT16: nat := 65535

  // ------------------------------------------------------------ cipher state

  datatype CipherVal = CipherVal(nonce: nat, key: Term, salt: Term)

  /** Ratchet the key forward: both halves of an HKDF of the key, under the salt. */
  function Rotated(v: CipherVal): CipherVal {
    CipherVal(0, SecondHalf(v.salt, v.key), FirstHalf(v.salt, v.key))
  }

  /** The state after one message. */
  function Bump(v: CipherVal): CipherVal {
    if v.nonce + 1 == KEY_ROTATION_INTERVAL then Rotated(v) else v.(nonce := v.nonce + 1)
  }

  function After(v: CipherVal, k: nat): CipherVal {
    if k == 0 then v else Bump(After(v, k - 1))
  }

  function Seal(v: CipherVal, ad: Term, plain: Plain): Cipher {
    Sealed(v.key, v.nonce, ad, plain)
  }

  function Open(v: CipherVal, ad: Term, c: Cipher): Option<Plain> {
    if c.key == v.key && c.nonce == v.nonce && c.ad == ad then Some(c.plain) else None
  }

  // ------------------------------------------------------- handshake digest

  datatype Hs = Hs(cipher: CipherVal, chain: Term, temp: Term, digest: Term)

  function MixHash(s: Hs, data: Term): Hs {
    s.(digest := Hash(s.digest, data))
  }

  function MixKey(s: Hs, input: Term): Hs {
    s.(chain := FirstHalf(s.chain, input), temp := SecondHalf(s.chain, input),
       cipher := s.cipher.(nonce := 0, key := SecondHalf(s.chain, input)))
  }

  function EncryptAndHash(s: Hs, plain: Plain): (Hs, Cipher) {
    var c := Seal(s.cipher, s.digest, plain);
    (MixHash(s.(cipher := Bump(s.cipher)), CipherText(c)), c)
  }

  function DecryptAndHash(s: Hs, c: Cipher): (Hs, Option<Plain>) {
    var plain := Open(s.cipher, s.digest, c);
    var s' := s.(cipher := Bump(s.cipher));
    if plain.None? then (s', None) else (MixHash(s', CipherText(c)), plain)
  }

  function StartHs(): Hs {
    var digest := HashOf(Text("Noise_XX_secp256k1_ChaChaPoly_SHA256"));
    MixHash(Hs(CipherVal(0, Zero, Zero), digest, Zero, digest), Text("lit"))
  }

  // ---------------------------------------------------------------- machine

  /** localStatic and localEphemeral name private keys; NoData stands for a key that is
      not known yet. */
  datatype MachineVal = MachineVal(initiator: bool, localStatic: nat, localEphemeral: nat,
                                   remoteStatic: Term, remoteEphemeral: Term, hs: Hs,
                                   send: CipherVal, recv: CipherVal)

  function NewMachine(initiator: bool, localStatic: nat): MachineVal {
    MachineVal(initiator, localStatic, 0, NoData, NoData, StartHs(), CipherVal(0, Zero, Zero), CipherVal(0, Zero, Zero))
  }

  /** The shared secret of a public and a private key, the same from both sides. */
  function Ecdh(pub: Term, priv: nat): Term {
    if !pub.Public? then NoData
    else if pub.owner <= priv then Shared(pub.owner, priv)
    else Shared(priv, pub.owner)
  }

  datatype ActOne = ActOne(version: nat, e: Term, payload: Cipher)
  datatype ActTwo = ActTwo(version: nat, e: Term, s: Term, payload: Cipher)
  datatype ActThree = ActThree(version: nat, s: Cipher, payload: Cipher)

  const EMPTY: Plain := Data([])

  function GenActOne(m: MachineVal, e: nat): (MachineVal, ActOne) {
    var (hs, payload) := EncryptAndHash(MixHash(m.hs, Public(e)), EMPTY);
    (m.(localEphemeral := e, hs := hs), ActOne(HANDSHAKE_VERSION, Public(e), payload))
  }

  function RecvActOne(m: MachineVal, act: ActOne): Option<MachineVal> {
    if act.version != HANDSHAKE_VERSION || !act.e.Public? then None
    else
      var (hs, plain) := DecryptAndHash(MixHash(m.hs, act.e), act.payload);
      if plain.None? then None else Some(m.(remoteEphemeral := act.e, hs := hs))
  }

  /** e, ee, s, es: the digest and keys of act two, from either side. */
  function ActTwoKeys(s: Hs, e: Term, ee: Term, sPub: Term, es: Term): Hs {
    MixKey(MixHash(MixKey(MixHash(s, e), ee), sPub), es)
  }

  function GenActTwo(m: MachineVal, e: nat): (MachineVal, ActTwo) {
    var mixed := ActTwoKeys(m.hs, Public(e), Ecdh(m.remoteEphemeral, e), Public(m.localStatic),
                            Ecdh(m.remoteEphemeral, m.localStatic));
    var (hs, payload) := EncryptAndHash(mixed, EMPTY);
    (m.(localEphemeral := e, hs := hs), ActTwo(HANDSHAKE_VERSION, Public(e), Public(m.localStatic), payload))
  }

  function RecvActTwo(m: MachineVal, act: ActTwo): Option<MachineVal> {
    if act.version != HANDSHAKE_VERSION || !act.e.Public? || !act.s.Public? then None
    else
      var mixed := ActTwoKeys(m.hs, act.e, Ecdh(act.e, m.localEphemeral), act.s, Ecdh(act.s, m.localEphemeral));
      var (hs, plain) := DecryptAndHash(mixed, act.payload);
      if plain.None? then None else Some(m.(remoteEphemeral := act.e, remoteStatic := act.s, hs := hs))
  }

  function GenActThree(m: MachineVal): (MachineVal, ActThree) {
    var (hs1, s) := EncryptAndHash(m.hs, Static(Public(m.localStatic)));
    var (hs2, payload) := EncryptAndHash(MixKey(hs1, Ecdh(m.remoteEphemeral, m.localStatic)), EMPTY);
    (Split(m.(hs := hs2)), ActThree(HANDSHAKE_VERSION, s, payload))
  }

  function RecvActThree(m: MachineVal, act: ActThree): Option<MachineVal> {
    if act.version != HANDSHAKE_VERSION then None
    else
      var (hs1, s) := DecryptAndHash(m.hs, act.s);
      if s.None? || !s.value.Static? || !s.value.key.Public? then None
      else
        var (hs2, plain) := DecryptAndHash(MixKey(hs1, Ecdh(s.value.key, m.localEphemeral)), act.payload);
        if plain.None? then None else Some(Split(m.(hs := hs2, remoteStatic := s.value.key)))
  }

  /** The initiator sends under the first half and receives under the second; the
      responder the other way round. */
  function Split(m: MachineVal): MachineVal {
    var first := CipherVal(0, FirstHalf(m.hs.chain, NoData), m.hs.chain);
    var second := CipherVal(0, SecondHalf(m.hs.chain, NoData), m.hs.chain);
    if m.initiator then m.(send := first, recv := second) else m.(recv := first, send := second)
  }

  // ---------------------------------------------------------- the handshake

  /** Each end sends under the cipher with which the other receives, and knows whom it
      is talking to. */
  predicate Mirrored(i: MachineVal, r: MachineVal) {
    && i.send == r.recv && i.recv == r.send
    && i.remoteStatic == Public(r.localStatic) && r.remoteStatic == Public(i.localStatic)
    && i.hs == r.hs
  }

  lemma SealOpens(s: Hs, plain: Plain)
    ensures var (s1, c) := EncryptAndHash(s, plain); DecryptAndHash(s, c) == (s1, Some(plain))
  {}

  /** After three acts delivered unchanged both machines have finished, with mirrored
      ciphers at nonce zero under keys that differ from each other. */
  lemma HandshakeMirrors(si: nat, sr: nat, ei: nat, er: nat)
    ensures var (i1, one) := GenActOne(NewMachine(true, si), ei);
      var r1 := RecvActOne(NewMachine(false, sr), one);
      && r1.Some?
      && var (r2, two) := GenActTwo(r1.value, er);
         var i2 := RecvActTwo(i1, two);
      && i2.Some?
      && var (i3, three) := GenActThree(i2.value);
         var r3 := RecvActThree(r2, three);
      && r3.Some? && Mirrored(i3, r3.value)
      && i3.send.nonce == i3.recv.nonce == 0 && i3.send.key != i3.recv.key
  {
    hide StartHs;
    var (i1, one) := GenActOne(NewMachine(true, si), ei);
    SealOpens(MixHash(StartHs(), Public(ei)), EMPTY);
    var r1 := RecvActOne(NewMachine(false, sr), one).value;
    assert r1.hs == i1.hs;
    ActTwoAgrees(i1, r1, er);
    var (r2, two) := GenActTwo(r1, er);
    ActThreeAgrees(RecvActTwo(i1, two).value, r2);
  }

  lemma ActTwoAgrees(i: MachineVal, r: MachineVal, er: nat)
    requires i.hs == r.hs && r.remoteEphemeral == Public(i.localEphemeral)
    ensures var (r2, two) := GenActTwo(r, er); var i2 := RecvActTwo(i, two);
      && i2.Some? && i2.value.hs == r2.hs
      && i2.value.remoteEphemeral == Public(r2.localEphemeral) && i2.value.remoteStatic == Public(r.localStatic)
      && r2 == r.(localEphemeral := er, hs := r2.hs)
      && i2.value == i.(remoteEphemeral := Public(er), remoteStatic := Public(r.localStatic), hs := r2.hs)
  {}

  lemma ActThreeAgrees(i: MachineVal, r: MachineVal)
    requires i.hs == r.hs && i.initiator && !r.initiator
    requires i.remoteEphemeral == Public(r.localEphemeral) && i.remoteStatic == Public(r.localStatic)
    ensures var (i3, three) := GenActThree(i); var r3 := RecvActThree(r, three);
      r3.Some? && Mirrored(i3, r3.value) && i3.send.nonce == i3.recv.nonce == 0 && i3.send.key != i3.recv.key
  {}

  /** A payload made for one ephemeral key is accepted with no other. */
  lemma ActOneExact(si: nat, sr: nat, ei: nat, act: ActOne)
    requires act.payload == GenActOne(NewMachine(true, si), ei).1.payload
    ensures RecvActOne(NewMachine(false, sr), act).Some?
       <==> act == GenActOne(NewMachine(true, si), ei).1
  {}

  /** In act two neither key can be replaced: the digest covers both, so the tag fits
      only the keys it was made for. */
  lemma ActTwoExact(i: MachineVal, r: MachineVal, er: nat, act: ActTwo)
    requires i.hs == r.hs && r.remoteEphemeral == Public(i.localEphemeral)
    requires act.payload == GenActTwo(r, er).1.payload
    ensures RecvActTwo(i, act).Some? <==> act == GenActTwo(r, er).1
  {
    ActTwoAgrees(i, r, er);
  }

  /** In act three the tag fits only the sealed static key it was made for. */
  lemma ActThreeExact(i: MachineVal, r: MachineVal, act: ActThree)
    requires i.hs == r.hs && i.initiator && !r.initiator
    requires i.remoteEphemeral == Public(r.localEphemeral) && i.remoteStatic == Public(r.localStatic)
    requires act.payload == GenActThree(i).1.payload
    ensures RecvActThree(r, act).Some? <==> act == GenActThree(i).1
  {
    ActThreeAgrees(i, r);
  }

  // ------------------------------------------------- no key and nonce twice

  function Rotations(v: CipherVal, k: nat): CipherVal {
    if k == 0 then v else Rotated(Rotations(v, k - 1))
  }

  /** After k messages the key has been rotated once for every thousand. */
  lemma {:induction false} AfterRotations(v: CipherVal, k: nat)
    requires v.nonce == 0
    ensures After(v, k) == Rotations(v, k / KEY_ROTATION_INTERVAL).(nonce := k % KEY_ROTATION_INTERVAL)
    decreases k
  {
    if k > 0 {
      AfterRotations(v, k - 1);
      RotationsNonce(v, (k - 1) / KEY_ROTATION_INTERVAL);
      var q, r := (k - 1) / KEY_ROTATION_INTERVAL, (k - 1) % KEY_ROTATION_INTERVAL;
      assert k - 1 == KEY_ROTATION_INTERVAL * q + r;
      if r + 1 == KEY_ROTATION_INTERVAL {
        assert k == KEY_ROTATION_INTERVAL * (q + 1);
        assert k / KEY_ROTATION_INTERVAL == q + 1 && k % KEY_ROTATION_INTERVAL == 0;
      } else {
        assert k / KEY_ROTATION_INTERVAL == q && k % KEY_ROTATION_INTERVAL == r + 1;
      }
    }
  }

  lemma {:induction false} RotationsNonce(v: CipherVal, k: nat)
    requires v.nonce == 0
    ensures Rotations(v, k).nonce == 0
  {
    if k > 0 { RotationsNonce(v, k - 1); }
  }

  function Depth(t: Term): nat {
    match t
    case SecondHalf(_, secret) => 1 + Depth(secret)
    case _ => 0
  }

  lemma {:induction false} RotationsDeeper(v: CipherVal, k: nat)
    ensures Depth(Rotations(v, k).key) == Depth(v.key) + k
  {
    if k > 0 { RotationsDeeper(v, k - 1); }
  }

  /** On one stream no pair of key and nonce is used twice, and no nonce reaches the
      rotation interval. */
  lemma NoncesUnique(v: CipherVal, j: nat, k: nat)
    requires v.nonce == 0 && j != k
    ensures After(v, j).nonce < KEY_ROTATION_INTERVAL
    ensures After(v, j).key != After(v, k).key || After(v, j).nonce != After(v, k).nonce
  {
    AfterRotations(v, j);
    AfterRotations(v, k);
    RotationsDeeper(v, j / KEY_ROTATION_INTERVAL);
    RotationsDeeper(v, k / KEY_ROTATION_INTERVAL);
  }

  /** Nor do the two directions of a connection ever share a key. */
  lemma StreamsApart(m: MachineVal, j: nat, k: nat)
    ensures After(Split(m).send, j).key != After(Split(m).recv, k).key
  {
    FirstApart(m.hs.chain, j, k);
    FirstApart(m.hs.chain, k, j);
  }

  lemma FirstApart(chain: Term, j: nat, k: nat)
    ensures After(CipherVal(0, FirstHalf(chain, NoData), chain), j).key
         != After(CipherVal(0, SecondHalf(chain, NoData), chain), k).key
  {
    var first := CipherVal(0, FirstHalf(chain, NoData), chain);
    var second := CipherVal(0, SecondHalf(chain, NoData), chain);
    AfterRotations(first, j);
    AfterRotations(second, k);
    var a, b := j / KEY_ROTATION_INTERVAL, k / KEY_ROTATION_INTERVAL;
    if Rotations(first, a).key == Rotations(second, b).key {
      RootsDiffer(first, a);
      RootsDiffer(second, b);
    }
  }

  /** What is left of a key once every rotation has been peeled off. */
  function Root(t: Term): Term {
    match t
    case SecondHalf(_, secret) => if secret.NoData? then t else Root(secret)
    case _ => t
  }

  lemma {:induction false} RootsDiffer(v: CipherVal, k: nat)
    requires !v.key.NoData?
    ensures Root(Rotations(v, k).key) == Root(v.key) && !Rotations(v, k).key.NoData?
  {
    if k > 0 { RootsDiffer(v, k - 1); }
  }
}
