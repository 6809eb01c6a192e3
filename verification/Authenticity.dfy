/** What a successful pull proves about the past of the run. */
module Authenticity {
  import opened Bytes
  import opened Symbolic
  import opened Secrecy
  import opened Protocol
  import opened Confinement
  import opened Invariant
  import opened Theorems
  import Vault

  ghost predicate Matches(r: Record, vaultId: seq<byte>, version: u32, plaintext: Str) {
    r.vaultId == vaultId && r.version == version && r.plaintext == plaintext
  }

  /** The record is a direct push, or a re-encryption out of a key that is not secret. */
  ghost predicate IsOrigin(w: World, r: Record) {
    r.from.None? || !Never(w, r.from.value)
  }

  ghost predicate Recorded(records: iset<Record>, t: Term) {
    t.Sealed? && t.alg == Aes256Gcm ==>
      exists r :: r in records && r.key == t.key && AadFor(r.vaultId, r.version) == t.aad && r.plaintext == t.message
  }

  /** Every record goes back to an origin at the same vault and version. */
  ghost predicate Traced(w: World, records: iset<Record>, r: Record) {
    exists o :: o in records && IsOrigin(w, o) && Matches(o, r.vaultId, r.version, r.plaintext)
  }

  ghost predicate HistoryOk(w: World, s: State) {
    && (forall t | t in s.log :: Recorded(s.records, t))
    && (forall r | r in s.records :: (r.user, r.key) in s.held && Traced(w, s.records, r))
  }

  /** A blob that opens under a secret key was recorded, at the pair it was asked for. */
  lemma OpenedWasRecorded(w: World, s: State, key: Str, vaultId: seq<byte>, version: u32, blob: Vault.EncryptedBlob)
    returns (r: Record)
    requires Inv(w, s) && HistoryOk(w, s) && Never(w, key) && Knows(s, blob.ciphertext)
    requires Vault.Opened(blob, key, AadFor(vaultId, version)).Ok?
    ensures r in s.records && r.key == key
    ensures Matches(r, vaultId, version, Vault.Opened(blob, key, AadFor(vaultId, version)).value)
  {
    var aad := AadFor(vaultId, version);
    KnownIsPublic(w, s, blob.ciphertext);
    OpenedIsConfined(w, s.log, Aes256Gcm, key, blob.nonce, aad, blob.ciphertext);
    NeverIsNotPublic(w, s.log, key);
    var t := Sealed(Aes256Gcm, key, blob.nonce, aad, Vault.Opened(blob, key, aad).value);
    assert Recorded(s.records, t);
    r :| r in s.records && r.key == t.key && AadFor(r.vaultId, r.version) == t.aad && r.plaintext == t.message;
    Vault.AadInjective(r.vaultId, r.version, vaultId, version);
  }

  lemma RecordedGrows(records: iset<Record>, more: iset<Record>, t: Term)
    requires records <= more && Recorded(records, t)
    ensures Recorded(more, t)
  {
  }

  lemma TracedGrows(w: World, records: iset<Record>, more: iset<Record>, r: Record)
    requires records <= more && Traced(w, records, r)
    ensures Traced(w, more, r)
  {
  }

  lemma RecordIsRecorded(r: Record, entry: Term)
    requires entry.Sealed? && r.key == entry.key && AadFor(r.vaultId, r.version) == entry.aad
    requires r.plaintext == entry.message
    ensures Recorded(iset{r}, entry)
  {
    assert r in iset{r};
  }

  lemma LogStaysRecorded(s: State, r: Record, entry: Term)
    requires forall t | t in s.log :: Recorded(s.records, t)
    requires Recorded(iset{r}, entry)
    ensures forall t | t in s.log + iset{entry} :: Recorded(s.records + iset{r}, t)
  {
    forall t | t in s.log + iset{entry} ensures Recorded(s.records + iset{r}, t) {
      if t in s.log {
        RecordedGrows(s.records, s.records + iset{r}, t);
      } else {
        RecordedGrows(iset{r}, s.records + iset{r}, t);
      }
    }
  }

  lemma RecordsStayTraced(w: World, s: State, r: Record)
    requires forall q | q in s.records :: Traced(w, s.records, q)
    requires IsOrigin(w, r) || Traced(w, s.records, r)
    ensures forall q | q in s.records + iset{r} :: Traced(w, s.records + iset{r}, q)
  {
    forall q | q in s.records + iset{r} ensures Traced(w, s.records + iset{r}, q) {
      if Traced(w, s.records, q) {
        TracedGrows(w, s.records, s.records + iset{r}, q);
      } else {
        assert Matches(r, q.vaultId, q.version, q.plaintext);
      }
    }
  }

  lemma HistoryWith(w: World, s: State, s': State, r: Record, entry: Term)
    requires HistoryOk(w, s) && (r.user, r.key) in s.held && Recorded(iset{r}, entry)
    requires IsOrigin(w, r) || Traced(w, s.records, r)
    requires s'.records == s.records + iset{r} && s'.log == s.log + iset{entry} && s'.held == s.held
    ensures HistoryOk(w, s')
  {
    hide Recorded, Traced, IsOrigin;
    LogStaysRecorded(s, r, entry);
    RecordsStayTraced(w, s, r);
  }

  lemma SealBlobKeepsHistory(w: World, s: State, r: Record, nonce: nat)
    requires HistoryOk(w, s) && (r.user, r.key) in s.held
    requires IsOrigin(w, r) || Traced(w, s.records, r)
    ensures HistoryOk(w, AfterSealBlob(s, r, nonce))
  {
    var s' := AfterSealBlob(s, r, nonce);
    if Vault.BlobOf(r.plaintext, r.key, AadFor(r.vaultId, r.version), GcmNonce(nonce)).Ok? {
      var entry := Sealed(Aes256Gcm, r.key, GcmNonce(nonce), AadFor(r.vaultId, r.version), r.plaintext);
      RecordIsRecorded(r, entry);
      HistoryWith(w, s, s', r, entry);
    }
  }

  lemma RekeyKeepsHistory(w: World, s: State, step: Step)
    requires Inv(w, s) && HistoryOk(w, s) && step.Rekey? && Enabled(w, s, step)
    ensures HistoryOk(w, Apply(w, s, step))
  {
    var aad := AadFor(step.vaultId, step.version);
    var used := s.(uses := s.uses + iset{Use(VaultSealing, step.key)});
    if Vault.Opened(step.blob, step.key, aad).Ok? {
      var plaintext := Vault.Opened(step.blob, step.key, aad).value;
      var r := Record(step.user, step.newKey, step.vaultId, step.version, plaintext, Some(step.key));
      if Never(w, step.key) {
        var q := OpenedWasRecorded(w, s, step.key, step.vaultId, step.version, step.blob);
        assert Traced(w, s.records, q);
      }
      SealBlobKeepsHistory(w, used, r, step.nonce);
    }
  }

  /** Other steps record nothing, and seal nothing that is a blob. */
  lemma QuietStep(w: World, s: State, step: Step)
    requires Enabled(w, s, step) && !step.Push? && !step.Rekey?
    ensures var s' := Apply(w, s, step);
            && s'.records == s.records && s.held <= s'.held
            && forall t | t in s'.log && t !in s.log :: t.Sealed? && t.alg == XChaCha20Poly1305
  {
  }

  lemma StepKeepsHistory(w: World, s: State, step: Step)
    requires Inv(w, s) && HistoryOk(w, s) && Enabled(w, s, step)
    ensures HistoryOk(w, Apply(w, s, step))
  {
    match step
    case Push(user, key, vaultId, version, plaintext, nonce) =>
      SealBlobKeepsHistory(w, s, Record(user, key, vaultId, version, plaintext, None), nonce);
    case Rekey(_, _, _, _, _, _, _) => RekeyKeepsHistory(w, s, step);
    case _ => QuietStep(w, s, step);
  }

  lemma {:induction false} RunKeepsHistory(w: World, s: State, steps: seq<Step>)
    requires Inv(w, s) && HistoryOk(w, s) && Runs(w, s, steps) && PrudentRun(w, s, steps)
    ensures HistoryOk(w, Final(w, s, steps))
    decreases |steps|
  {
    if steps != [] {
      StepKeepsInv(w, s, steps[0]);
      StepKeepsHistory(w, s, steps[0]);
      RunKeepsHistory(w, Apply(w, s, steps[0]), steps[1..]);
    }
  }

  /** The step of the run that made a record. */
  ghost predicate MadeBy(step: Step, r: Record) {
    match step
    case Push(user, key, vaultId, version, plaintext, _) =>
      r == Record(user, key, vaultId, version, plaintext, None)
    case Rekey(user, key, newKey, vaultId, version, blob, _) =>
      && r == Record(user, newKey, vaultId, version, r.plaintext, Some(key))
      && Vault.Opened(blob, key, AadFor(vaultId, version)) == Ok(r.plaintext)
    case _ => false
  }

  lemma {:induction false} RecordsComeFromSteps(w: World, s: State, steps: seq<Step>, r: Record)
    requires Runs(w, s, steps) && r in Final(w, s, steps).records
    ensures r in s.records || exists i :: 0 <= i < |steps| && MadeBy(steps[i], r)
    decreases |steps|
  {
    if steps != [] {
      var s' := Apply(w, s, steps[0]);
      RecordsComeFromSteps(w, s', steps[1..], r);
      if r !in s'.records {
        var i :| 0 <= i < |steps| - 1 && MadeBy(steps[1..][i], r);
        assert MadeBy(steps[i + 1], r);
      }
    }
  }

  /** A successful pull under a secret key returns what a holder of that key sealed at
      exactly that vault and version, and the plaintext entered the vault there: by a push, or
      by a re-encryption of a blob that holds it under a key that is not secret. */
  lemma PullIsAuthentic(w: World, s: State, steps: seq<Step>, pull: Step)
    requires Reachable(w, s, steps) && pull.Pull? && Enabled(w, s, pull) && Never(w, pull.key)
    requires Vault.Opened(pull.blob, pull.key, AadFor(pull.vaultId, pull.version)).Ok?
    ensures var plaintext := Vault.Opened(pull.blob, pull.key, AadFor(pull.vaultId, pull.version)).value;
            && (exists r :: r in s.records && r.key == pull.key && (r.user, r.key) in s.held &&
                  Matches(r, pull.vaultId, pull.version, plaintext))
            && (exists o, i :: o in s.records && IsOrigin(w, o) && 0 <= i < |steps| && MadeBy(steps[i], o) &&
                  Matches(o, pull.vaultId, pull.version, plaintext))
  {
    ReachableInv(w, s, steps);
    InitInv(w);
    RunKeepsHistory(w, Init(), steps);
    var r := OpenedWasRecorded(w, s, pull.key, pull.vaultId, pull.version, pull.blob);
    assert Traced(w, s.records, r);
    var o :| o in s.records && IsOrigin(w, o) && Matches(o, r.vaultId, r.version, r.plaintext);
    RecordsComeFromSteps(w, Init(), steps, o);
  }

  /** Re-encryptions start from keys only members hold. */
  ghost predicate RekeysFromSecretKeys(w: World, steps: seq<Step>) {
    forall i | 0 <= i < |steps| && steps[i].Rekey? :: Never(w, steps[i].key)
  }

  predicate Pushes(step: Step, vaultId: seq<byte>, version: u32, text: Str) {
    step.Push? && step.vaultId == vaultId && step.version == version && step.plaintext == text
  }

  /** When only members hold vault keys, a pull returns exactly what some push of the run
      sealed at that vault and version, however often it was re-keyed since. */
  lemma PullReturnsAPush(w: World, s: State, steps: seq<Step>, pull: Step)
    requires Reachable(w, s, steps) && pull.Pull? && Enabled(w, s, pull) && Never(w, pull.key)
    requires Vault.Opened(pull.blob, pull.key, AadFor(pull.vaultId, pull.version)).Ok?
    requires RekeysFromSecretKeys(w, steps)
    ensures exists i :: 0 <= i < |steps| && Pushes(steps[i], pull.vaultId, pull.version,
              Vault.Opened(pull.blob, pull.key, AadFor(pull.vaultId, pull.version)).value)
  {
    PullIsAuthentic(w, s, steps, pull);
    var plaintext := Vault.Opened(pull.blob, pull.key, AadFor(pull.vaultId, pull.version)).value;
    var o, i :| o in s.records && IsOrigin(w, o) && 0 <= i < |steps| && MadeBy(steps[i], o) &&
                Matches(o, pull.vaultId, pull.version, plaintext);
    assert Pushes(steps[i], pull.vaultId, pull.version, plaintext);
  }
}
