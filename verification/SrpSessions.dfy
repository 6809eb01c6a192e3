/** Any number of interleaved logins over a network that may deliver anything. */
module SrpSessions {
  import opened Bytes
  import opened Arith
  import opened NumberTheory
  import opened Srp

  type Email = seq<byte>

  /** What the server stores at registration. */
  datatype Account = Account(verifier: nat, salt: seq<byte>)

  datatype ClientPhase =
    | Waiting                                        // A sent
    | Proved(salt: seq<byte>, b: nat, proof: Proof)  // M1 sent
    | Done(salt: seq<byte>, b: nat, proof: Proof, accepted: Digest)  // M2 accepted
    | Refused                                        // B was zero modulo N
    | Failed                                         // M2 was wrong

  datatype Client = Client(email: Email, password: seq<byte>, a: nat, phase: ClientPhase)

  datatype ServerPhase = Challenged | Confirmed(m1: Digest, m2: Digest) | Rejected

  datatype Server = Server(email: Email, account: Account, b: nat, a: nat, phase: ServerPhase)

  datatype State = State(accounts: map<Email, Account>, clients: map<nat, Client>, servers: map<nat, Server>)

  datatype Step =
    | Enroll(email: Email, password: seq<byte>, salt: seq<byte>)
    | ClientStart(id: nat, email: Email, password: seq<byte>, a: nat)
    | ServerStart(id: nat, email: Email, clientPublic: nat, b: nat)
    | ClientReply(id: nat, salt: seq<byte>, serverPublic: nat)
    | ServerCheck(id: nat, m1: Digest)
    | ClientCheck(id: nat, m2: Digest)

  function Init(): State {
    State(map[], map[], map[])
  }

  function PublicB(gr: Group, s: Server): nat
    requires gr.n > 0
  {
    ServerPublic(gr, s.account.verifier, s.b)
  }

  function ServerKey(gr: Group, s: Server): Digest
    requires gr.n > 0
  {
    SessionKey(ServerSecret(gr, s.a, s.account.verifier, gr.hashU(s.a, PublicB(gr, s)), s.b))
  }

  /** The client proof the server expects. */
  function ExpectedM1(gr: Group, s: Server): Digest
    requires gr.n > 0
  {
    ClientProof(gr.proofData(s.email, s.account.salt), s.a, PublicB(gr, s), ServerKey(gr, s))
  }

  /** The server's side in the terms of the protocol. */
  lemma ServerEquations(gr: Group, s: Server)
    requires gr.n > 0
    ensures var v, pub := s.account.verifier, (gr.k * s.account.verifier + Pow(gr.g, s.b)) % gr.n;
            var key := SessionKey(Pow(s.a * Pow(v, gr.hashU(s.a, pub)), s.b) % gr.n);
            && PublicB(gr, s) == pub && ServerKey(gr, s) == key
            && ExpectedM1(gr, s) == ClientProof(gr.proofData(s.email, s.account.salt), s.a, pub, key)
  {
    ServerPublicIs(gr, s.account.verifier, s.b);
    ServerSecretIs(gr, s.a, s.account.verifier, gr.hashU(s.a, PublicB(gr, s)), s.b);
  }

  // The network may deliver any value in any order; the server refuses a zero A
  // (section 2.5.4 of RFC 5054).
  predicate Enabled(gr: Group, st: State, step: Step)
    requires gr.n > 0
  {
    match step
    case Enroll(email, _, _) => email !in st.accounts
    case ClientStart(id, _, _, _) => id !in st.clients
    case ServerStart(id, email, a, _) => id !in st.servers && email in st.accounts && a % gr.n != 0
    case ClientReply(id, _, _) => id in st.clients && st.clients[id].phase.Waiting?
    case ServerCheck(id, _) => id in st.servers && st.servers[id].phase.Challenged?
    case ClientCheck(id, _) => id in st.clients && st.clients[id].phase.Proved?
  }

  function AfterReply(gr: Group, c: Client, salt: seq<byte>, b: nat): Client
    requires gr.n > 0
  {
    if b % gr.n == 0 then c.(phase := Refused)
    else c.(phase := Proved(salt, b, ProofOf(gr, c.email, c.password, salt, b, c.a)))
  }

  function AfterServerCheck(gr: Group, s: Server, m1: Digest): Server
    requires gr.n > 0
  {
    if m1 == ExpectedM1(gr, s) then s.(phase := Confirmed(m1, ServerProof(s.a, m1, ServerKey(gr, s))))
    else s.(phase := Rejected)
  }

  function AfterClientCheck(c: Client, m2: Digest): Client
    requires c.phase.Proved?
  {
    if m2 == c.phase.proof.m2 then c.(phase := Done(c.phase.salt, c.phase.b, c.phase.proof, m2))
    else c.(phase := Failed)
  }

  function Apply(gr: Group, st: State, step: Step): State
    requires gr.n > 0 && Enabled(gr, st, step)
  {
    match step
    case Enroll(email, password, salt) =>
      st.(accounts := st.accounts[email := Account(VerifierOf(gr, email, password, salt), salt)])
    case ClientStart(id, email, password, a) => st.(clients := st.clients[id := Client(email, password, a, Waiting)])
    case ServerStart(id, email, a, b) =>
      st.(servers := st.servers[id := Server(email, st.accounts[email], b, a, Challenged)])
    case ClientReply(id, salt, b) => st.(clients := st.clients[id := AfterReply(gr, st.clients[id], salt, b)])
    case ServerCheck(id, m1) => st.(servers := st.servers[id := AfterServerCheck(gr, st.servers[id], m1)])
    case ClientCheck(id, m2) => st.(clients := st.clients[id := AfterClientCheck(st.clients[id], m2)])
  }

  predicate Runs(gr: Group, st: State, steps: seq<Step>)
    requires gr.n > 0
    decreases |steps|
  {
    steps == [] || (Enabled(gr, st, steps[0]) && Runs(gr, Apply(gr, st, steps[0]), steps[1..]))
  }

  function Final(gr: Group, st: State, steps: seq<Step>): State
    requires gr.n > 0 && Runs(gr, st, steps)
    decreases |steps|
  {
    if steps == [] then st else Final(gr, Apply(gr, st, steps[0]), steps[1..])
  }

  // ----- Any network -----

  predicate ClientOk(gr: Group, c: Client)
    requires gr.n > 0
  {
    match c.phase
    case Proved(salt, b, proof) => b % gr.n != 0 && proof == ProofOf(gr, c.email, c.password, salt, b, c.a)
    case Done(salt, b, proof, accepted) =>
      b % gr.n != 0 && proof == ProofOf(gr, c.email, c.password, salt, b, c.a) && accepted == proof.m2
    case _ => true
  }

  predicate ServerOk(gr: Group, s: Server)
    requires gr.n > 0
  {
    && s.a % gr.n != 0
    && (s.phase.Confirmed? ==>
          s.phase.m1 == ExpectedM1(gr, s) && s.phase.m2 == ServerProof(s.a, s.phase.m1, ServerKey(gr, s)))
  }

  ghost predicate Inv(gr: Group, st: State)
    requires gr.n > 0
  {
    && (forall id | id in st.clients :: ClientOk(gr, st.clients[id]))
    && (forall id | id in st.servers :: ServerOk(gr, st.servers[id]))
  }

  lemma {:induction false} RunKeepsInv(gr: Group, st: State, steps: seq<Step>)
    requires gr.n > 0 && Inv(gr, st) && Runs(gr, st, steps)
    ensures Inv(gr, Final(gr, st, steps))
    decreases |steps|
  {
    if steps != [] {
      RunKeepsInv(gr, Apply(gr, st, steps[0]), steps[1..]);
    }
  }

  /** M1 is computed over the user and the salt, and determines them. */
  ghost predicate ProofNamesUser(gr: Group) {
    forall email, salt, email', salt' :: gr.proofData(email, salt) == gr.proofData(email', salt') ==>
      email == email' && salt == salt'
  }

  /** However the network relays or alters messages: when a client accepts a proof that some
      server session made, that session agrees with the client on both ephemerals, the client
      proof and the session key, and on the user and the salt if M1 names them; neither
      ephemeral is zero modulo N. */
  lemma AcceptedMeansAgreed(gr: Group, steps: seq<Step>, c: nat, s: nat)
    requires gr.n > 0 && Runs(gr, Init(), steps)
    requires var st := Final(gr, Init(), steps);
             c in st.clients && st.clients[c].phase.Done? && s in st.servers && st.servers[s].phase.Confirmed? &&
             st.clients[c].phase.accepted == st.servers[s].phase.m2
    ensures var cl, sv := Final(gr, Init(), steps).clients[c], Final(gr, Init(), steps).servers[s];
            && PublicOf(gr, cl.a) == sv.a && cl.phase.b == PublicB(gr, sv)
            && sv.a % gr.n != 0 && cl.phase.b % gr.n != 0
            && cl.phase.proof.m1 == sv.phase.m1 && cl.phase.proof.key == ServerKey(gr, sv)
            && (ProofNamesUser(gr) ==> cl.email == sv.email && cl.phase.salt == sv.account.salt)
  {
    RunKeepsInv(gr, Init(), steps);
  }

  /** The other direction: when a server confirms a proof that some client computed, the two
      agree on the same values. */
  lemma ConfirmedMeansAgreed(gr: Group, steps: seq<Step>, c: nat, s: nat)
    requires gr.n > 0 && Runs(gr, Init(), steps)
    requires var st := Final(gr, Init(), steps);
             c in st.clients && (st.clients[c].phase.Proved? || st.clients[c].phase.Done?) &&
             s in st.servers && st.servers[s].phase.Confirmed? && st.clients[c].phase.proof.m1 == st.servers[s].phase.m1
    ensures var cl, sv := Final(gr, Init(), steps).clients[c], Final(gr, Init(), steps).servers[s];
            && PublicOf(gr, cl.a) == sv.a && cl.phase.b == PublicB(gr, sv)
            && sv.a % gr.n != 0 && cl.phase.b % gr.n != 0
            && cl.phase.proof.key == ServerKey(gr, sv) && cl.phase.proof.m2 == sv.phase.m2
            && (ProofNamesUser(gr) ==> cl.email == sv.email && cl.phase.salt == sv.account.salt)
  {
    RunKeepsInv(gr, Init(), steps);
  }

  // ----- A network that delivers -----

  /** Login `id` is between client `id` and server session `id`, and every message arrives
      as it was sent; the user types the enrolled password. */
  predicate Honest(gr: Group, st: State, step: Step)
    requires gr.n > 0
  {
    match step
    case Enroll(_, _, _) => true
    case ClientStart(id, email, password, _) =>
      && id !in st.servers && email in st.accounts
      && st.accounts[email].verifier == VerifierOf(gr, email, password, st.accounts[email].salt)
    case ServerStart(id, email, a, _) =>
      id in st.clients && email == st.clients[id].email && a == PublicOf(gr, st.clients[id].a)
    case ClientReply(id, salt, b) =>
      id in st.servers && salt == st.servers[id].account.salt && b == PublicB(gr, st.servers[id])
    case ServerCheck(id, m1) => id in st.clients && st.clients[id].phase.Proved? && m1 == st.clients[id].phase.proof.m1
    case ClientCheck(id, m2) => id in st.servers && st.servers[id].phase.Confirmed? && m2 == st.servers[id].phase.m2
  }

  predicate HonestRun(gr: Group, st: State, steps: seq<Step>)
    requires gr.n > 0 && Runs(gr, st, steps)
    decreases |steps|
  {
    steps == [] || (Honest(gr, st, steps[0]) && HonestRun(gr, Apply(gr, st, steps[0]), steps[1..]))
  }

  /** The server session runs on the account the client's password was enrolled with. */
  predicate Matched(gr: Group, c: Client, s: Server)
    requires gr.n > 0
  {
    && s.email == c.email && s.a == PublicOf(gr, c.a)
    && s.account.verifier == VerifierOf(gr, c.email, c.password, s.account.salt)
  }

  /** What an undisturbed login looks like at each stage. */
  predicate OnTrack(gr: Group, c: Client, s: Server)
    requires gr.n > 0
  {
    && Matched(gr, c, s)
    && !c.phase.Failed? && !s.phase.Rejected?
    && (c.phase.Refused? ==> PublicB(gr, s) % gr.n == 0)
    && (c.phase.Proved? || c.phase.Done? ==>
          c.phase.salt == s.account.salt && c.phase.b == PublicB(gr, s) && PublicB(gr, s) % gr.n != 0
          && c.phase.proof == ProofOf(gr, c.email, c.password, s.account.salt, PublicB(gr, s), c.a))
    && (s.phase.Confirmed? ==> c.phase.Proved? || c.phase.Done?)
    && (c.phase.Done? ==> s.phase.Confirmed?)
    && ServerOk(gr, s)
  }

  ghost predicate HonestInv(gr: Group, st: State)
    requires gr.n > 0
  {
    && (forall id | id in st.servers :: id in st.clients && OnTrack(gr, st.clients[id], st.servers[id]))
    && (forall id | id in st.clients :: st.clients[id].email in st.accounts)
    && (forall id | id in st.clients && id !in st.servers ::
          var c := st.clients[id]; var account := st.accounts[c.email];
          c.phase.Waiting? && account.verifier == VerifierOf(gr, c.email, c.password, account.salt))
  }

  /** On a matched login the two sides compute one key, so the client's proof is the one the
      server expects. */
  lemma MatchedAgree(gr: Group, c: Client, s: Server)
    requires gr.n > 0 && Matched(gr, c, s)
    ensures var proof := ProofOf(gr, c.email, c.password, s.account.salt, PublicB(gr, s), c.a);
            proof.key == ServerKey(gr, s) && proof.m1 == ExpectedM1(gr, s)
  {
    KeyAgreement(gr, gr.hashX(s.account.salt, c.email, c.password), c.a, s.b, gr.hashU(s.a, PublicB(gr, s)));
  }

  lemma DeliveryKeepsTrack(gr: Group, c: Client, s: Server)
    requires gr.n > 0 && OnTrack(gr, c, s)
    ensures c.phase.Waiting? ==> OnTrack(gr, AfterReply(gr, c, s.account.salt, PublicB(gr, s)), s)
    ensures c.phase.Proved? && s.phase.Challenged? ==> OnTrack(gr, c, AfterServerCheck(gr, s, c.phase.proof.m1))
    ensures c.phase.Proved? && s.phase.Confirmed? ==> OnTrack(gr, AfterClientCheck(c, s.phase.m2), s)
  {
    MatchedAgree(gr, c, s);
  }

  /** Replacing one end of a login by another that is on track keeps the rest. */
  lemma ReplaceClient(gr: Group, st: State, id: nat, c: Client)
    requires gr.n > 0 && HonestInv(gr, st) && id in st.clients && id in st.servers
    requires OnTrack(gr, c, st.servers[id]) && c.email == st.clients[id].email
    ensures HonestInv(gr, st.(clients := st.clients[id := c]))
  {
  }

  lemma ReplaceServer(gr: Group, st: State, id: nat, s: Server)
    requires gr.n > 0 && HonestInv(gr, st) && id in st.servers
    requires OnTrack(gr, st.clients[id], s)
    ensures HonestInv(gr, st.(servers := st.servers[id := s]))
  {
  }

  lemma HonestStepKeepsInv(gr: Group, st: State, step: Step)
    requires gr.n > 0 && HonestInv(gr, st) && Enabled(gr, st, step) && Honest(gr, st, step)
    ensures HonestInv(gr, Apply(gr, st, step))
  {
    match step
    case Enroll(_, _, _) =>
    case ClientStart(_, _, _, _) =>
    case ServerStart(id, _, _, _) =>
      assert OnTrack(gr, st.clients[id], Apply(gr, st, step).servers[id]);
    case ClientReply(id, salt, b) =>
      DeliveryKeepsTrack(gr, st.clients[id], st.servers[id]);
      ReplaceClient(gr, st, id, AfterReply(gr, st.clients[id], salt, b));
    case ServerCheck(id, m1) =>
      DeliveryKeepsTrack(gr, st.clients[id], st.servers[id]);
      ReplaceServer(gr, st, id, AfterServerCheck(gr, st.servers[id], m1));
    case ClientCheck(id, m2) =>
      DeliveryKeepsTrack(gr, st.clients[id], st.servers[id]);
      ReplaceClient(gr, st, id, AfterClientCheck(st.clients[id], m2));
  }

  lemma {:induction false} HonestRunKeepsInv(gr: Group, st: State, steps: seq<Step>)
    requires gr.n > 0 && HonestInv(gr, st) && Runs(gr, st, steps) && HonestRun(gr, st, steps)
    ensures HonestInv(gr, Final(gr, st, steps))
    decreases |steps|
  {
    if steps != [] {
      HonestStepKeepsInv(gr, st, steps[0]);
      HonestRunKeepsInv(gr, Apply(gr, st, steps[0]), steps[1..]);
    }
  }

  /** How far a login has come: 0 to 4. */
  function Progress(st: State, id: nat): nat
    requires id in st.clients
  {
    (if id in st.servers then 1 else 0) +
    (if st.clients[id].phase.Waiting? then 0 else 1) +
    (if id in st.servers && st.servers[id].phase.Confirmed? then 1 else 0) +
    (if st.clients[id].phase.Done? then 1 else 0)
  }

  predicate Over(c: Client) {
    c.phase.Done? || c.phase.Refused?
  }

  /** The message a login is waiting for. */
  function NextStep(gr: Group, st: State, id: nat, b: nat): Step
    requires gr.n > 0 && HonestInv(gr, st) && id in st.clients && !Over(st.clients[id])
  {
    var c := st.clients[id];
    if id !in st.servers then ServerStart(id, c.email, PublicOf(gr, c.a), b)
    else
      var s := st.servers[id];
      if c.phase.Waiting? then ClientReply(id, s.account.salt, PublicB(gr, s))
      else if s.phase.Challenged? then ServerCheck(id, c.phase.proof.m1)
      else ClientCheck(id, s.phase.m2)
  }

  /** The step is a message of login `id`. */
  predicate Concerns(step: Step, id: nat) {
    !step.Enroll? && step.id == id
  }

  function MessagesOf(steps: seq<Step>, id: nat): nat {
    if steps == [] then 0 else (if Concerns(steps[0], id) then 1 else 0) + MessagesOf(steps[1..], id)
  }

  /** A login advances with each of its own messages and with nothing else. */
  lemma StepAdvances(gr: Group, st: State, step: Step, id: nat)
    requires gr.n > 0 && HonestInv(gr, st) && Enabled(gr, st, step) && Honest(gr, st, step) && id in st.clients
    ensures id in Apply(gr, st, step).clients
    ensures Progress(Apply(gr, st, step), id) == Progress(st, id) + if Concerns(step, id) then 1 else 0
  {
    if Concerns(step, id) && id in st.servers {
      DeliveryKeepsTrack(gr, st.clients[id], st.servers[id]);
    }
  }

  /** So in any honest interleaving a login takes at most four messages after the first. */
  lemma {:induction false} RunAdvances(gr: Group, st: State, steps: seq<Step>, id: nat)
    requires gr.n > 0 && HonestInv(gr, st) && Runs(gr, st, steps) && HonestRun(gr, st, steps) && id in st.clients
    ensures id in Final(gr, st, steps).clients
    ensures Progress(Final(gr, st, steps), id) == Progress(st, id) + MessagesOf(steps, id) <= 4
    decreases |steps|
  {
    if steps != [] {
      StepAdvances(gr, st, steps[0], id);
      HonestStepKeepsInv(gr, st, steps[0]);
      RunAdvances(gr, Apply(gr, st, steps[0]), steps[1..], id);
    }
  }

  /** A login that is not over can always go on: its next message is enabled. */
  lemma LoginCanGoOn(gr: Group, st: State, id: nat, b: nat)
    requires Prime(gr.n) && 0 < gr.g < gr.n
    requires HonestInv(gr, st) && id in st.clients && !Over(st.clients[id])
    ensures var step := NextStep(gr, st, id, b);
            && Enabled(gr, st, step) && Honest(gr, st, step)
            && Concerns(step, id) && Progress(Apply(gr, st, step), id) == Progress(st, id) + 1 <= 4
  {
    var c := st.clients[id];
    EphemeralNeverZero(gr, c.a);
    ModUnique(PublicOf(gr, c.a), gr.n, 0, PublicOf(gr, c.a));
    if id in st.servers {
      MatchedAgree(gr, c, st.servers[id]);
    }
  }

  /** Whatever honest interleaving came before, at most four more messages end the login. */
  lemma {:induction false} LoginFinishes(gr: Group, st: State, id: nat, b: nat) returns (steps: seq<Step>)
    requires Prime(gr.n) && 0 < gr.g < gr.n
    requires HonestInv(gr, st) && id in st.clients
    ensures Runs(gr, st, steps) && HonestRun(gr, st, steps) && |steps| + Progress(st, id) <= 4
    ensures id in Final(gr, st, steps).clients && Over(Final(gr, st, steps).clients[id])
    decreases 4 - Progress(st, id)
  {
    if Over(st.clients[id]) {
      steps := [];
    } else {
      var step := NextStep(gr, st, id, b);
      LoginCanGoOn(gr, st, id, b);
      HonestStepKeepsInv(gr, st, step);
      StepAdvances(gr, st, step, id);
      var rest := LoginFinishes(gr, Apply(gr, st, step), id, b);
      RunPrepended(gr, st, step, rest);
      steps := [step] + rest;
    }
  }

  /** In every honest interleaving, a login that is over has either been accepted by both
      sides with one session key, or the server's B was zero modulo N: it ends the one way or
      the other exactly as B decides. */
  lemma HonestLoginsSucceed(gr: Group, steps: seq<Step>, id: nat)
    requires gr.n > 0 && Runs(gr, Init(), steps) && HonestRun(gr, Init(), steps)
    requires id in Final(gr, Init(), steps).clients && Over(Final(gr, Init(), steps).clients[id])
    ensures var st := Final(gr, Init(), steps);
            && id in st.servers
            && var c, s := st.clients[id], st.servers[id];
               && (c.phase.Done? <==> PublicB(gr, s) % gr.n != 0)
               && (c.phase.Done? ==> s.phase.Confirmed? && c.phase.proof.key == ServerKey(gr, s))
  {
    HonestRunKeepsInv(gr, Init(), steps);
    var st := Final(gr, Init(), steps);
    MatchedAgree(gr, st.clients[id], st.servers[id]);
  }

  /** No honest login is ever rejected by either side. */
  lemma HonestLoginsAreNotRejected(gr: Group, steps: seq<Step>, id: nat)
    requires gr.n > 0 && Runs(gr, Init(), steps) && HonestRun(gr, Init(), steps)
    ensures var st := Final(gr, Init(), steps);
            && (id in st.clients ==> !st.clients[id].phase.Failed?)
            && (id in st.servers ==> !st.servers[id].phase.Rejected?)
  {
    HonestRunKeepsInv(gr, Init(), steps);
  }

  // ----- A login that ends without a session -----

  /** Every nonzero residue is a power of g. */
  ghost predicate Generates(gr: Group)
    requires gr.n > 0
  {
    forall r | 0 < r < gr.n :: IsPower(gr, r)
  }

  ghost predicate IsPower(gr: Group, r: nat)
    requires gr.n > 0
  {
    exists e: nat :: PowMod(gr.g, e, gr.n) == r
  }

  /** Some draw of the server makes B zero exactly when k*v is not zero itself. */
  lemma ZeroBPossibleIff(gr: Group, v: nat)
    requires Prime(gr.n) && 0 < gr.g < gr.n && Generates(gr)
    ensures (exists b: nat :: ServerPublic(gr, v, b) == 0) <==> gr.k * v % gr.n != 0
  {
    var n := gr.n;
    MulNonNegative(gr.k, v);
    var kv := gr.k * v;
    if kv % n != 0 {
      assert IsPower(gr, n - kv % n);
      var b: nat :| PowMod(gr.g, b, n) == n - kv % n;
      ModUnique(kv + (n - kv % n), n, kv / n + 1, 0);
      assert ServerPublic(gr, v, b) == 0;
    } else {
      forall b: nat ensures ServerPublic(gr, v, b) != 0 {
        EphemeralNeverZero(gr, b);
        ModUnique(kv + PowMod(gr.g, b, n), n, kv / n, PowMod(gr.g, b, n));
      }
    }
  }

  /** The refusals in `HonestLoginsSucceed` do happen: for every account with k*v not zero,
      and at any time, a login can go on honestly to where the client refuses it. */
  lemma HonestLoginRefused(gr: Group, st: State, id: nat, email: Email, password: seq<byte>, a: nat)
    returns (steps: seq<Step>)
    requires Prime(gr.n) && 0 < gr.g < gr.n && Generates(gr) && HonestInv(gr, st)
    requires id !in st.clients && id !in st.servers && email in st.accounts
    requires var account := st.accounts[email];
             account.verifier == VerifierOf(gr, email, password, account.salt) && gr.k * account.verifier % gr.n != 0
    ensures Runs(gr, st, steps) && HonestRun(gr, st, steps)
    ensures id in Final(gr, st, steps).clients && Final(gr, st, steps).clients[id].phase.Refused?
  {
    var account := st.accounts[email];
    ZeroBPossibleIff(gr, account.verifier);
    var b: nat :| ServerPublic(gr, account.verifier, b) == 0;
    EphemeralNeverZero(gr, a);
    ModUnique(PublicOf(gr, a), gr.n, 0, PublicOf(gr, a));
    ModUnique(0, gr.n, 0, 0);
    var start := ClientStart(id, email, password, a);
    var challenge := ServerStart(id, email, PublicOf(gr, a), b);
    var reply := ClientReply(id, account.salt, 0);
    var s1 := Apply(gr, st, start);
    var s2 := Apply(gr, s1, challenge);
    RunPrepended(gr, s2, reply, []);
    RunPrepended(gr, s1, challenge, [reply] + []);
    RunPrepended(gr, st, start, [challenge] + ([reply] + []));
    steps := [start] + ([challenge] + ([reply] + []));
  }

  lemma RunPrepended(gr: Group, st: State, step: Step, rest: seq<Step>)
    requires gr.n > 0 && Enabled(gr, st, step) && Honest(gr, st, step)
    requires var st' := Apply(gr, st, step); Runs(gr, st', rest) && HonestRun(gr, st', rest)
    ensures var steps := [step] + rest;
            && Runs(gr, st, steps) && HonestRun(gr, st, steps)
            && Final(gr, st, steps) == Final(gr, Apply(gr, st, step), rest)
  {
    assert ([step] + rest)[1..] == rest;
  }

  /** A group in which every password has the verifier 1. */
  const SMALL_GROUP: Group :=
    Group(5, 2, 1, (a: nat, b: nat) => 0, (salt: seq<byte>, email: seq<byte>, password: seq<byte>) => 0,
          (email: seq<byte>, salt: seq<byte>) => email)

  /** The server draws b = 2, and k*v + g^b = 1 + 4 is zero modulo 5. */
  const UNLUCKY_LOGIN: seq<Step> :=
    [Enroll([], [], []), ClientStart(0, [], [], 0), ServerStart(0, [], 1, 2), ClientReply(0, [], 0)]

  /** A whole run of that kind, in numbers. */
  lemma RefusalExample()
    ensures Prime(SMALL_GROUP.n) && 0 < SMALL_GROUP.g < SMALL_GROUP.n
    ensures Runs(SMALL_GROUP, Init(), UNLUCKY_LOGIN) && HonestRun(SMALL_GROUP, Init(), UNLUCKY_LOGIN)
    ensures 0 in Final(SMALL_GROUP, Init(), UNLUCKY_LOGIN).clients
    ensures Final(SMALL_GROUP, Init(), UNLUCKY_LOGIN).clients[0].phase.Refused?
  {
    var gr, steps := SMALL_GROUP, UNLUCKY_LOGIN;
    assert VerifierOf(gr, [], [], []) == 1;
    var s0 := Init();
    var s1 := Apply(gr, s0, steps[0]);
    var s2 := Apply(gr, s1, steps[1]);
    var s3 := Apply(gr, s2, steps[2]);
    var s4 := Apply(gr, s3, steps[3]);
    assert Runs(gr, s4, steps[4..]) && Final(gr, s4, steps[4..]) == s4;
  }
}
