/** Who can compute the keys of a connection (lndc/noise.go:136-154, 186-205, 412-667).

    Everything public can be computed, a shared secret only with one of its two private
    keys, and a hash or a derived key only from its parts, or when it has been stolen. */
module NoiseSecrets {
  import opened Wrappers
  import opened Noise

  function Computable(t: Term, owned: set<nat>, stolen: set<Term>): bool {
    t in stolen ||
    match t
    case Shared(a, b) => a in owned || b in owned
    case HashOf(x) => Computable(x, owned, stolen)
    case Hash(before, data) => Computable(before, owned, stolen) && Computable(data, owned, stolen)
    case FirstHalf(salt, secret) => Computable(salt, owned, stolen) && Computable(secret, owned, stolen)
    case SecondHalf(salt, secret) => Computable(salt, owned, stolen) && Computable(secret, owned, stolen)
    case _ => true
  }

  // ------------------------------------------------------------ the handshake

  /** The initiator's machine at the end of an honest handshake. */
  function Finished(si: nat, sr: nat, ei: nat, er: nat): Option<MachineVal> {
    var (i1, one) := GenActOne(NewMachine(true, si), ei);
    var r1 := RecvActOne(NewMachine(false, sr), one);
    if r1.None? then None
    else
      var (r2, two) := GenActTwo(r1.value, er);
      var i2 := RecvActTwo(i1, two);
      if i2.None? then None else Some(GenActThree(i2.value).0)
  }

  /** An owner of private keys has one of each pair that was combined. */
  predicate HasOneOfEach(si: nat, sr: nat, ei: nat, er: nat, owned: set<nat>) {
    (ei in owned || er in owned) && (ei in owned || sr in owned) && (si in owned || er in owned)
  }

  /** The secret both sides combine. */
  function Pair(a: nat, b: nat): Term {
    if a <= b then Shared(a, b) else Shared(b, a)
  }

  /** The chaining key mixes the three shared secrets in, one after the other. */
  lemma ChainOf(si: nat, sr: nat, ei: nat, er: nat)
    ensures var m := Finished(si, sr, ei, er);
      && m.Some?
      && var chain := m.value.hs.chain;
         && chain == FirstHalf(FirstHalf(FirstHalf(StartHs().chain, Pair(ei, er)), Pair(ei, sr)), Pair(si, er))
         && m.value.send == CipherVal(0, FirstHalf(chain, NoData), chain)
         && m.value.recv == CipherVal(0, SecondHalf(chain, NoData), chain)
  {}

  lemma PairComputable(a: nat, b: nat, owned: set<nat>)
    ensures Computable(Pair(a, b), owned, {}) <==> a in owned || b in owned
  {}

  /** The keys of an honest connection can be computed exactly with a private key out of each
      of the three pairs: both static keys alone are not enough. */
  lemma SessionSecret(si: nat, sr: nat, ei: nat, er: nat, owned: set<nat>)
    ensures var m := Finished(si, sr, ei, er);
      && m.Some?
      && (Computable(m.value.send.key, owned, {}) <==> HasOneOfEach(si, sr, ei, er, owned))
      && (Computable(m.value.recv.key, owned, {}) <==> HasOneOfEach(si, sr, ei, er, owned))
      && (Computable(m.value.send.salt, owned, {}) <==> HasOneOfEach(si, sr, ei, er, owned))
  {
    hide Finished, Pair, StartHs;
    ChainOf(si, sr, ei, er);
    StartComputable(owned);
    PairComputable(ei, er, owned);
    PairComputable(ei, sr, owned);
    PairComputable(si, er, owned);
    var a := FirstHalf(StartHs().chain, Pair(ei, er));
    var b := FirstHalf(a, Pair(ei, sr));
    HalfComputable(StartHs().chain, Pair(ei, er), owned);
    HalfComputable(a, Pair(ei, sr), owned);
    HalfComputable(b, Pair(si, er), owned);
    HalfComputable(FirstHalf(b, Pair(si, er)), NoData, owned);
  }

  lemma HalfComputable(salt: Term, secret: Term, owned: set<nat>)
    ensures Computable(FirstHalf(salt, secret), owned, {})
       <==> Computable(salt, owned, {}) && Computable(secret, owned, {})
    ensures Computable(SecondHalf(salt, secret), owned, {}) == Computable(FirstHalf(salt, secret), owned, {})
    ensures Computable(NoData, owned, {})
  {}

  lemma StartComputable(owned: set<nat>)
    ensures Computable(StartHs().chain, owned, {})
  {}

  lemma PairSame(a: nat, b: nat, c: nat, d: nat)
    requires Pair(a, b) == Pair(c, d)
    ensures (a == c && b == d) || (a == d && b == c)
  {}

  /** Two honest handshakes never end with the same key, unless they used the same four keys. */
  lemma SessionsApart(si: nat, sr: nat, ei: nat, er: nat, si': nat, sr': nat, ei': nat, er': nat)
    requires si != sr && si != ei && si != er && sr != ei && sr != er && ei != er
    ensures var m, m' := Finished(si, sr, ei, er), Finished(si', sr', ei', er');
      && m.Some? && m'.Some?
      && (m.value.send.key == m'.value.send.key || m.value.recv.key == m'.value.recv.key ==>
            si == si' && sr == sr' && ei == ei' && er == er')
  {
    hide Finished, Pair, StartHs;
    ChainOf(si, sr, ei, er);
    ChainOf(si', sr', ei', er');
    var m, m' := Finished(si, sr, ei, er).value, Finished(si', sr', ei', er').value;
    if m.send.key == m'.send.key || m.recv.key == m'.recv.key {
      PairSame(ei, er, ei', er');
      PairSame(ei, sr, ei', sr');
      PairSame(si, er, si', er');
    }
  }

  /** Whoever made an act three that is accepted under a name has the private key of that
      name, or the responder's ephemeral key. */
  lemma ActThreeAuthentic(m: MachineVal, act: ActThree, owned: set<nat>)
    requires RecvActThree(m, act).Some?
    ensures var r := RecvActThree(m, act).value;
      && r.remoteStatic.Public? && act.s.plain == Static(r.remoteStatic)
      && (Computable(act.payload.key, owned, {}) ==> r.remoteStatic.owner in owned || m.localEphemeral in owned)
  {
    PairComputable(RecvActThree(m, act).value.remoteStatic.owner, m.localEphemeral, owned);
  }

  /** Likewise act two proves the private key of the responder's name to the initiator. */
  lemma ActTwoAuthentic(m: MachineVal, act: ActTwo, owned: set<nat>)
    requires RecvActTwo(m, act).Some?
    ensures act.s.Public? && RecvActTwo(m, act).value.remoteStatic == act.s
    ensures Computable(act.payload.key, owned, {}) ==> act.s.owner in owned || m.localEphemeral in owned
  {
    PairComputable(act.s.owner, m.localEphemeral, owned);
  }

  // ---------------------------------------------------------------- rotation

  function Size(t: Term): nat {
    match t
    case HashOf(x) => 1 + Size(x)
    case Hash(before, data) => 1 + Size(before) + Size(data)
    case FirstHalf(salt, secret) => 1 + Size(salt) + Size(secret)
    case SecondHalf(salt, secret) => 1 + Size(salt) + Size(secret)
    case _ => 1
  }

  /** Stealing larger terms does not help to compute a smaller one. */
  lemma {:induction false} LargerUseless(t: Term, owned: set<nat>, stolen: set<Term>)
    requires forall x <- stolen :: Size(t) < Size(x)
    ensures Computable(t, owned, stolen) == Computable(t, owned, {})
  {
    match t
    case HashOf(x) => LargerUseless(x, owned, stolen);
    case Hash(before, data) => LargerUseless(before, owned, stolen); LargerUseless(data, owned, stolen);
    case FirstHalf(salt, secret) => LargerUseless(salt, owned, stolen); LargerUseless(secret, owned, stolen);
    case SecondHalf(salt, secret) => LargerUseless(salt, owned, stolen); LargerUseless(secret, owned, stolen);
    case _ =>
  }

  lemma {:induction false} RotatedSecret(v: CipherVal, k: nat, owned: set<nat>)
    requires !Computable(v.key, owned, {})
    ensures !Computable(Rotations(v, k).key, owned, {})
  {
    if k > 0 { RotatedSecret(v, k - 1, owned); }
  }

  lemma {:induction false} RotationsGrow(v: CipherVal, j: nat, k: nat)
    requires j < k
    ensures Size(Rotations(v, j).key) < Size(Rotations(v, k).key) && Size(Rotations(v, j).key) < Size(Rotations(v, k).salt)
    decreases k
  {
    if j < k - 1 { RotationsGrow(v, j, k - 1); }
  }

  /** Forward secrecy of the ratchet: stealing the whole cipher state after a rotation does
      not give away any key it had before. */
  lemma PastKeysSafe(v: CipherVal, j: nat, k: nat, owned: set<nat>)
    requires v.nonce == 0 && !Computable(v.key, owned, {})
    requires j / KEY_ROTATION_INTERVAL < k / KEY_ROTATION_INTERVAL
    ensures !Computable(After(v, j).key, owned, {After(v, k).key, After(v, k).salt})
  {
    hide Rotated;
    var a, b := j / KEY_ROTATION_INTERVAL, k / KEY_ROTATION_INTERVAL;
    AfterRotations(v, j);
    AfterRotations(v, k);
    RotatedSecret(v, a, owned);
    RotationsGrow(v, a, b);
    LargerUseless(Rotations(v, a).key, owned, {Rotations(v, b).key, Rotations(v, b).salt});
  }
}
