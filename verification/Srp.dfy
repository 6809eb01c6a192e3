/** The SRP-6a client, and the server's side of its equations (RFC 5054, RFC 2945). */
module Srp {
  import opened Bytes
  import opened Arith
  import opened NumberTheory
  import BigEndian

  /** A group, the hashes that scramble two ephemerals into `u` and the password into `x`, and
      what M1 hashes beside A, B and K. The identity is hashed into `x`. */
  datatype Group = Group(n: nat, g: nat, k: nat,
                         hashU: (nat, nat) -> nat,
                         hashX: (seq<byte>, seq<byte>, seq<byte>) -> nat,
                         proofData: (seq<byte>, seq<byte>) -> seq<byte>)

  /** Values of an injective hash: the session key and the two proofs (RFC 2945, section 3). */
  datatype Digest =
    | SessionKey(secret: nat)
    | ClientProof(data: seq<byte>, a: nat, b: nat, key: Digest)
    | ServerProof(a: nat, m1: Digest, key: Digest)

  function PowMod(b: nat, e: nat, n: nat): (r: nat)
    requires n > 0
    ensures r < n
  {
    Pow(b, e) % n
  }

  // ----- The equations -----

  function VerifierOf(gr: Group, email: seq<byte>, password: seq<byte>, salt: seq<byte>): nat
    requires gr.n > 0
  {
    PowMod(gr.g, gr.hashX(salt, email, password), gr.n)
  }

  function PublicOf(gr: Group, secret: nat): nat
    requires gr.n > 0
  {
    PowMod(gr.g, secret, gr.n)
  }

  /** B = k*v + g^b. */
  function ServerPublic(gr: Group, v: nat, b: nat): nat
    requires gr.n > 0
  {
    MulNonNegative(gr.k, v);
    (gr.k * v + PowMod(gr.g, b, gr.n)) % gr.n
  }

  /** (B - k*g^x)^(a + u*x), with N added first so that nothing is negative. */
  function ClientBase(gr: Group, b: nat, x: nat): nat
    requires gr.n > 0
  {
    MulNonNegative(gr.k, PowMod(gr.g, x, gr.n));
    var kgx := gr.k * PowMod(gr.g, x, gr.n) % gr.n;
    (gr.n + b - kgx) % gr.n
  }

  function ClientSecret(gr: Group, b: nat, x: nat, a: nat, u: nat): nat
    requires gr.n > 0
  {
    MulNonNegative(u, x);
    PowMod(ClientBase(gr, b, x), u * x + a, gr.n)
  }

  /** (A * v^u)^b. */
  function ServerSecret(gr: Group, a: nat, v: nat, u: nat, b: nat): nat
    requires gr.n > 0
  {
    MulNonNegative(a, PowMod(v, u, gr.n));
    PowMod(a * PowMod(v, u, gr.n), b, gr.n)
  }

  // ----- The equations as the protocol states them -----

  lemma ServerPublicIs(gr: Group, v: nat, b: nat)
    requires gr.n > 0
    ensures ServerPublic(gr, v, b) == (gr.k * v + Pow(gr.g, b)) % gr.n
  {
    ModCongruent(Pow(gr.g, b), gr.n);
    AddCongruent(gr.k * v, gr.k * v, PowMod(gr.g, b, gr.n), Pow(gr.g, b), gr.n);
  }

  /** The client's arithmetic without negative numbers is S = (B - k*g^x)^(a + u*x) mod N. */
  lemma ClientSecretIs(gr: Group, b: nat, x: nat, a: nat, u: nat)
    requires gr.n > 0
    ensures u * x >= 0 && ClientSecret(gr, b, x, a, u) == Pow(b - gr.k * Pow(gr.g, x), a + u * x) % gr.n
  {
    var n := gr.n;
    var kgx := gr.k * PowMod(gr.g, x, n);
    MulNonNegative(gr.k, PowMod(gr.g, x, n));
    MulNonNegative(u, x);
    ModCongruent(Pow(gr.g, x), n);
    MulCongruent(gr.k, gr.k, PowMod(gr.g, x, n), Pow(gr.g, x), n);
    ModCongruent(kgx, n);
    AddCongruent(b, b, kgx % n, gr.k * Pow(gr.g, x), n);
    MultipleCongruent(n + b - kgx % n, b - kgx % n, 1, n);
    ModCongruent(n + b - kgx % n, n);
    PowCongruent(ClientBase(gr, b, x), b - gr.k * Pow(gr.g, x), u * x + a, n);
  }

  /** The server's is S = (A * v^u)^b mod N. */
  lemma ServerSecretIs(gr: Group, a: nat, v: nat, u: nat, b: nat)
    requires gr.n > 0
    ensures ServerSecret(gr, a, v, u, b) == Pow(a * Pow(v, u), b) % gr.n
  {
    ModCongruent(Pow(v, u), gr.n);
    MulCongruent(a, a, PowMod(v, u, gr.n), Pow(v, u), gr.n);
    PowCongruent(a * PowMod(v, u, gr.n), a * Pow(v, u), b, gr.n);
  }

  /** Different powers of g, up to its order. */
  ghost predicate PowersDiffer(gr: Group, order: nat)
    requires gr.n > 0
  {
    forall i: nat, j: nat | i < order && j < order && Pow(gr.g, i) % gr.n == Pow(gr.g, j) % gr.n :: i == j
  }

  /** With a hash that separates its inputs below the order of g, verifiers of different
      users, passwords or salts differ. */
  lemma VerifiersDiffer(gr: Group, order: nat, email: seq<byte>, password: seq<byte>, salt: seq<byte>,
                        email': seq<byte>, password': seq<byte>, salt': seq<byte>)
    requires gr.n > 0 && PowersDiffer(gr, order)
    requires gr.hashX(salt, email, password) < order && gr.hashX(salt', email', password') < order
    requires gr.hashX(salt, email, password) == gr.hashX(salt', email', password') ==>
               email == email' && password == password' && salt == salt'
    ensures VerifierOf(gr, email, password, salt) == VerifierOf(gr, email', password', salt') <==>
            email == email' && password == password' && salt == salt'
  {
  }

  // ----- Agreement -----

  /** Subtracting what the server added leaves g^b. */
  lemma BaseIsServerPower(gr: Group, x: nat, b: nat)
    requires gr.n > 0
    ensures var v := PowMod(gr.g, x, gr.n);
            Congruent(ClientBase(gr, ServerPublic(gr, v, b), x), Pow(gr.g, b), gr.n)
  {
    var n, v := gr.n, PowMod(gr.g, x, gr.n);
    var gb := PowMod(gr.g, b, n);
    MulNonNegative(gr.k, v);
    var pub := ServerPublic(gr, v, b);
    ModCongruent(gr.k * v + gb, n);
    ModCongruent(gr.k * v, n);
    AddCongruent(pub, gr.k * v + gb, gr.k * v % n, gr.k * v, n);
    MultipleCongruent(n + pub - gr.k * v % n, pub - gr.k * v % n, 1, n);
    ModCongruent(n + pub - gr.k * v % n, n);
    ModCongruent(Pow(gr.g, b), n);
  }

  lemma ClientIsPower(gr: Group, x: nat, a: nat, b: nat, u: nat)
    requires gr.n > 0
    ensures var v := PowMod(gr.g, x, gr.n);
            u * x + a >= 0 && b * (u * x + a) >= 0 &&
            ClientSecret(gr, ServerPublic(gr, v, b), x, a, u) == Pow(gr.g, b * (u * x + a)) % gr.n
  {
    var v := PowMod(gr.g, x, gr.n);
    var base := ClientBase(gr, ServerPublic(gr, v, b), x);
    MulNonNegative(u, x);
    var e := u * x + a;
    BaseIsServerPower(gr, x, b);
    PowCongruent(base, Pow(gr.g, b), e, gr.n);
    PowMul(gr.g, b, e);
  }

  lemma ServerIsPower(gr: Group, x: nat, a: nat, b: nat, u: nat)
    requires gr.n > 0
    ensures var v := PowMod(gr.g, x, gr.n);
            x * u >= 0 && (a + x * u) * b >= 0 &&
            ServerSecret(gr, PublicOf(gr, a), v, u, b) == Pow(gr.g, (a + x * u) * b) % gr.n
  {
    var n, v := gr.n, PowMod(gr.g, x, gr.n);
    MulNonNegative(x, u);
    ModCongruent(Pow(gr.g, x), n);
    PowCongruent(v, Pow(gr.g, x), u, n);
    PowMul(gr.g, x, u);
    ModCongruent(Pow(v, u), n);
    ModCongruent(Pow(gr.g, a), n);
    var left := PublicOf(gr, a) * PowMod(v, u, n);
    MulCongruent(PublicOf(gr, a), Pow(gr.g, a), PowMod(v, u, n), Pow(gr.g, x * u), n);
    PowAdd(gr.g, a, x * u);
    PowCongruent(left, Pow(gr.g, a + x * u), b, n);
    PowMul(gr.g, a + x * u, b);
  }

  /** Both sides compute one secret, for every group, key, ephemeral and scrambler. */
  lemma KeyAgreement(gr: Group, x: nat, a: nat, b: nat, u: nat)
    requires gr.n > 0
    ensures var v := PowMod(gr.g, x, gr.n);
            ClientSecret(gr, ServerPublic(gr, v, b), x, a, u) == ServerSecret(gr, PublicOf(gr, a), v, u, b)
  {
    ClientIsPower(gr, x, a, b, u);
    ServerIsPower(gr, x, a, b, u);
    assert b * (u * x + a) == (a + x * u) * b;
  }

  // ----- The client functions -----

  datatype Verifier = Verifier(verifier: seq<byte>, srpSalt: seq<byte>)

  datatype Ephemeral = Ephemeral(privateA: seq<byte>, publicA: seq<byte>)

  /** What the client keeps until the server's proof arrives. */
  datatype Proof = Proof(m1: Digest, m2: Digest, key: Digest)

  method ComputeVerifier(gr: Group, email: seq<byte>, password: seq<byte>, srpSalt: seq<byte>) returns (r: Verifier)
    requires gr.n > 0
    ensures BigEndian.Value(r.verifier) == VerifierOf(gr, email, password, srpSalt) && r.srpSalt == srpSalt
    ensures BigEndian.Value(r.verifier) == Pow(gr.g, gr.hashX(srpSalt, email, password)) % gr.n
    ensures r.verifier != [] && (r.verifier[0] != 0 || r.verifier == [0])
  {
    var v := ModPow(gr.g, gr.hashX(srpSalt, email, password), gr.n);
    BigEndian.ValueOfMinimal(v);
    BigEndian.MinimalIsShortest(v);
    r := Verifier(BigEndian.Minimal(v), srpSalt);
  }

  /** `random` is what the generator writes into the 64-byte buffer. */
  method GenerateClientEphemeral(gr: Group, random: seq<byte>) returns (r: Result<Ephemeral>)
    requires gr.n > 0 && |random| == 64
    ensures r.Ok? <==> Pow(gr.g, BigEndian.Value(random)) % gr.n != 0
    ensures r.Ok? ==> r.value.privateA == random
    ensures r.Ok? ==> BigEndian.Value(r.value.publicA) == Pow(gr.g, BigEndian.Value(random)) % gr.n
    ensures r.Ok? ==> r.value.publicA != [] && r.value.publicA[0] != 0
    ensures r.Err? ==> r.error == CryptoError.Srp
  {
    var privateA := new byte[64](_ => 0);
    forall i | 0 <= i < 64 { privateA[i] := random[i]; }
    assert privateA[..] == random;
    var a := ModPow(gr.g, BigEndian.Value(privateA[..]), gr.n);
    var publicA := BigEndian.Minimal(a);
    BigEndian.ValueOfMinimal(a);
    BigEndian.MinimalIsShortest(a);
    var zero := BigEndian.IsAllZero(publicA);
    if zero {
      return Err(CryptoError.Srp);
    }
    return Ok(Ephemeral(privateA[..], publicA));
  }

  /** In a prime group the error path above is dead: no ephemeral is zero. */
  lemma EphemeralNeverZero(gr: Group, a: nat)
    requires Prime(gr.n) && 0 < gr.g < gr.n
    ensures PublicOf(gr, a) != 0
  {
    if PublicOf(gr, a) == 0 {
      PrimeDividesPower(gr.n, gr.g, a);
      ModUnique(gr.g, gr.n, 0, gr.g);
    }
  }

  function ProofOf(gr: Group, email: seq<byte>, password: seq<byte>, salt: seq<byte>, b: nat, a: nat): Proof
    requires gr.n > 0
  {
    var pub := PublicOf(gr, a);
    var key := SessionKey(ClientSecret(gr, b, gr.hashX(salt, email, password), a, gr.hashU(pub, b)));
    var m1 := ClientProof(gr.proofData(email, salt), pub, b, key);
    Proof(m1, ServerProof(pub, m1, key), key)
  }

  /** Refuses exactly the server values that are zero modulo N: the all-zero ones before, the
      other multiples of N (section 2.5.3 of RFC 5054) in processing the reply. */
  method ComputeClientProof(gr: Group, email: seq<byte>, password: seq<byte>, salt: seq<byte>,
                            serverPublicB: seq<byte>, ephemeral: Ephemeral) returns (r: Result<Proof>)
    requires gr.n > 0
    ensures var b := BigEndian.Value(serverPublicB);
            r == if b % gr.n == 0 then Err(CryptoError.Srp)
                 else Ok(ProofOf(gr, email, password, salt, b, BigEndian.Value(ephemeral.privateA)))
    ensures r.Ok? ==>
              var a, b := BigEndian.Value(ephemeral.privateA), BigEndian.Value(serverPublicB);
              var pub := Pow(gr.g, a) % gr.n;
              && gr.hashX(salt, email, password) * gr.hashU(pub, b) >= 0
              && r.value.key == SessionKey(Pow(b - gr.k * Pow(gr.g, gr.hashX(salt, email, password)),
                                               a + gr.hashX(salt, email, password) * gr.hashU(pub, b)) % gr.n)
              && r.value.m1 == ClientProof(gr.proofData(email, salt), pub, b, r.value.key)
              && r.value.m2 == ServerProof(pub, r.value.m1, r.value.key)
  {
    var zero := BigEndian.IsAllZero(serverPublicB);
    var b := BigEndian.Value(serverPublicB);
    if zero {
      ModUnique(0, gr.n, 0, 0);
      return Err(CryptoError.Srp);
    }
    if b % gr.n == 0 {
      return Err(CryptoError.Srp);
    }
    var a := BigEndian.Value(ephemeral.privateA);
    var pub := ModPow(gr.g, a, gr.n);
    var x := gr.hashX(salt, email, password);
    var u := gr.hashU(pub, b);
    var gx := ModPow(gr.g, x, gr.n);
    MulNonNegative(gr.k, gx);
    MulNonNegative(u, x);
    var base := (gr.n + b - gr.k * gx % gr.n) % gr.n;
    var secret := ModPow(base, u * x + a, gr.n);
    ClientSecretIs(gr, b, x, a, u);
    assert u * x == x * u;
    var key := SessionKey(secret);
    var m1 := ClientProof(gr.proofData(email, salt), pub, b, key);
    return Ok(Proof(m1, ServerProof(pub, m1, key), key));
  }

  /** Accepts exactly the proof of the two values this client sent and the key it derived. */
  method VerifyServerProof(serverProof: Digest, proof: Proof) returns (r: Result<()>)
    ensures r == if serverProof == proof.m2 then Ok(()) else Err(CryptoError.Srp)
    ensures forall gr: Group, email, password, salt, b: nat, a: nat |
              gr.n > 0 && proof == ProofOf(gr, email, password, salt, b, a) ::
              r.Ok? <==> serverProof == ServerProof(PublicOf(gr, a), proof.m1, proof.key)
  {
    if serverProof != proof.m2 {
      return Err(CryptoError.Srp);
    }
    return Ok(());
  }
}
