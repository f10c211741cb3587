/** The manager's secrets: set, read, deleted and listed, each under the store's lock. */
module SecretStore {
  import opened Options
  import opened Sites
  import opened Secrets
  import DomainLists

  /** NotSaved: the change was made in memory, and writing the state failed. */
  datatype Outcome = Done | Invalid | TooLong | NoCipher | NoRandomness | NotLocked | NotLoaded | NotSaved
  {
    predicate Changed() {
      Done? || NotSaved?
    }
  }

  type State = Option<map<string, Bytes>>

  function At(state: map<string, Bytes>, key: string): Option<Bytes> {
    if key in state then Some(state[key]) else None
  }

  /** The certificate that a state holds for a site's type and names. */
  function CertificateIn(state: State, cipher: Option<Cipher>, key: string): Answer {
    if key == "" || state.None? then Error
    else
      var stored := At(state.value, key);
      if stored.None? || |stored.value| < NONCE_SIZE then Missing
      else if cipher.None? then Error
      else CertificateOf(cipher.value, stored)
  }

  class Manager {
    /** None until the state is loaded. */
    var state: State
    /** None when no encryption key is configured. */
    const cipher: Option<Cipher>
    const digest: string -> string
    ghost var stored: State // what the store was given last, if it took it
    ghost var failures: nat // how often the lock was not granted, or the state not written, so far

    constructor (state: State, cipher: Option<Cipher>, digest: string -> string)
      ensures this.state == state && this.cipher == cipher && this.digest == digest
    {
      this.state, this.cipher, this.digest := state, cipher, digest;
    }

    /** What the lock and the store answer is not under the manager's control. */
    method Save(key: string, value: Option<Bytes>) returns (outcome: Outcome)
      modifies this`state, this`stored, this`failures
      ensures outcome.NotLocked? || outcome.NotLoaded? || outcome.Changed()
      ensures outcome.NotLoaded? ==> state.None?
      ensures failures >= old(failures) && (outcome.Done? <==> old(state).Some? && failures == old(failures))
      ensures outcome.Done? ==> stored == state
      ensures outcome.Changed() ==>
                && old(state).Some?
                && state == Some(if value.Some? then old(state).value[key := value.value] else old(state).value - {key})
      ensures !outcome.Changed() ==> state == old(state)
    {
      var locked: bool := *;
      if !locked {
        failures := failures + 1;
        return NotLocked;
      }
      if state.None? {
        return NotLoaded;
      }
      state := Some(if value.Some? then state.value[key := value.value] else state.value - {key});
      outcome := WriteState();
    }

    method WriteState() returns (outcome: Outcome)
      modifies this`stored, this`failures
      ensures outcome.Changed()
      ensures failures == old(failures) + if outcome.Done? then 0 else 1
      ensures outcome.Done? ==> stored == state
    {
      var written: bool := *;
      if written {
        stored := state;
      } else {
        failures := failures + 1;
      }
      outcome := if written then Done else NotSaved;
    }

    method SetSecret(key: string, value: Bytes, nonce: Option<Bytes>) returns (outcome: Outcome)
      requires nonce.Some? ==> |nonce.value| == NONCE_SIZE
      modifies this`state, this`stored, this`failures
      ensures outcome.NoCipher? <==> cipher.None?
      ensures outcome.NoRandomness? <==> cipher.Some? && nonce.None?
      ensures failures >= old(failures)
      ensures outcome.Done? <==> cipher.Some? && nonce.Some? && old(state).Some? && failures == old(failures)
      ensures outcome.Done? ==> stored == state
      ensures outcome.Changed() ==>
                && cipher.Some? && nonce.Some? && old(state).Some?
                && state == Some(old(state).value[key := Sealed(cipher.value, nonce.value, value)])
      ensures !outcome.Changed() ==> !outcome.Done? && state == old(state)
      ensures !outcome.Invalid? && !outcome.TooLong?
    {
      if cipher.None? {
        return NoCipher;
      }
      if nonce.None? {
        return NoRandomness;
      }
      var encrypted := cipher.value.seal(nonce.value, value);
      outcome := Save(key, Some(nonce.value + encrypted));
    }

    method DeleteSecret(key: string) returns (outcome: Outcome)
      modifies this`state, this`stored, this`failures
      ensures outcome.NotLocked? || outcome.NotLoaded? || outcome.Changed()
      ensures failures >= old(failures) && (outcome.Done? <==> old(state).Some? && failures == old(failures))
      ensures outcome.Done? ==> stored == state
      ensures outcome.Changed() ==> old(state).Some? && state == Some(old(state).value - {key})
      ensures !outcome.Changed() ==> state == old(state)
    {
      outcome := Save(key, None);
    }

    method GetSecret(key: string) returns (r: Opened)
      ensures state.None? ==> r == OpenError
      ensures state.Some? && cipher.Some? ==> r == Open(cipher.value, At(state.value, key))
      ensures state.Some? && cipher.None? ==>
              r == if key in state.value && |state.value[key]| >= NONCE_SIZE then OpenError else Nothing
    {
      if state.None? {
        return OpenError;
      }
      if key !in state.value || |state.value[key]| < NONCE_SIZE {
        return Nothing;
      }
      if cipher.None? {
        return OpenError;
      }
      var stored := state.value[key];
      var text := cipher.value.open(stored[..NONCE_SIZE], stored[NONCE_SIZE..]);
      r := if text.None? then OpenError else Value(text.value);
    }

    method SetCertificate(kind: TlsType, names: seq<string>, key: Bytes, cert: Bytes, nonce: Option<Bytes>)
        returns (outcome: Outcome)
      requires nonce.Some? ==> |nonce.value| == NONCE_SIZE
      modifies this`state, this`stored, this`failures
      ensures outcome.Invalid? <==> SecretKey(kind, names, digest) == ""
      ensures outcome.TooLong? <==> !outcome.Invalid? && (|key| > MAX_PART || |cert| > MAX_PART)
      ensures failures >= old(failures)
      ensures outcome.Done? <==>
              && !outcome.Invalid? && !outcome.TooLong?
              && cipher.Some? && nonce.Some? && old(state).Some? && failures == old(failures)
      ensures outcome.Done? ==> stored == state
      ensures outcome.Changed() ==>
                && cipher.Some? && nonce.Some? && old(state).Some?
                && |key| <= MAX_PART && |cert| <= MAX_PART && SecretKey(kind, names, digest) != ""
                && state == Some(old(state).value[SecretKey(kind, names, digest) :=
                                                  Sealed(cipher.value, nonce.value, Encode(key, cert))])
      ensures !outcome.Changed() ==> state == old(state)
    {
      var secretKey := SecretKey(kind, names, digest);
      if secretKey == "" {
        return Invalid;
      }
      if |key| > MAX_PART || |cert| > MAX_PART {
        return TooLong;
      }
      var serialized := PutUint32(|key|);
      serialized := serialized + PutUint32(|cert|);
      serialized := serialized + key;
      serialized := serialized + cert;
      outcome := SetSecret(secretKey, serialized, nonce);
    }

    method GetCertificate(kind: TlsType, names: seq<string>) returns (r: Answer)
      ensures r == CertificateIn(state, cipher, SecretKey(kind, names, digest))
    {
      var secretKey := SecretKey(kind, names, digest);
      if secretKey == "" {
        return Error;
      }
      var serialized := GetSecret(secretKey);
      match serialized
      case OpenError => r := Error;
      case Nothing => r := Missing;
      case Value(b) => r := if |b| < 8 then Missing else Decode(b);
    }

    method RemoveCertificate(kind: TlsType, names: seq<string>) returns (outcome: Outcome)
      modifies this`state, this`stored, this`failures
      ensures outcome.Invalid? <==> SecretKey(kind, names, digest) == ""
      ensures failures >= old(failures)
      ensures outcome.Done? <==> !outcome.Invalid? && old(state).Some? && failures == old(failures)
      ensures outcome.Done? ==> stored == state
      ensures outcome.Changed() ==>
                && old(state).Some? && SecretKey(kind, names, digest) != ""
                && state == Some(old(state).value - {SecretKey(kind, names, digest)})
      ensures !outcome.Changed() ==> state == old(state)
    {
      var secretKey := SecretKey(kind, names, digest);
      if secretKey == "" {
        return Invalid;
      }
      outcome := DeleteSecret(secretKey);
    }

    /** The names of the imported certificates, each once, in whatever order the map is visited. */
    method ListImportedCertificates() returns (names: seq<string>)
      requires state.Some?
      ensures forall n: string :: n in names <==> IMPORTED_PREFIX + n in state.value
      ensures forall i, j | 0 <= i < j < |names| :: names[i] != names[j]
    {
      names := [];
      var left := state.value.Keys;
      while left != {}
        invariant left <= state.value.Keys
        invariant forall n: string :: n in names <==> IMPORTED_PREFIX + n in state.value && IMPORTED_PREFIX + n !in left
        invariant forall i, j | 0 <= i < j < |names| :: names[i] != names[j]
        decreases |left|
      {
        var k: string :| k in left;
        left := left - {k};
        if IMPORTED_PREFIX <= k {
          assert k == IMPORTED_PREFIX + k[|IMPORTED_PREFIX|..];
          names := names + [k[|IMPORTED_PREFIX|..]];
        }
        forall n: string
          ensures n in names <==> IMPORTED_PREFIX + n in state.value && IMPORTED_PREFIX + n !in left
        {
          assert (IMPORTED_PREFIX + n)[|IMPORTED_PREFIX|..] == n;
        }
      }
    }
  }

  /** What every request for a certificate gets after SetCertificate changed the state: the stored pair for the
  same secret (an error if a part of it is empty), and what it got before for every other secret. */
  lemma SetThenGet(state: map<string, Bytes>, cipher: Cipher, nonce: Bytes, digest: string -> string,
                   kind: TlsType, names: seq<string>, key: Bytes, cert: Bytes, kind': TlsType, names': seq<string>)
    requires cipher.Sound() && |nonce| == NONCE_SIZE && SecretKey(kind, names, digest) != ""
    requires |key| <= MAX_PART && |cert| <= MAX_PART
    ensures var after := state[SecretKey(kind, names, digest) := Sealed(cipher, nonce, Encode(key, cert))];
            CertificateIn(Some(after), Some(cipher), SecretKey(kind', names', digest)) ==
            if kind != kind' || SecretKey(kind', names', digest) == "" ||
               (if kind.Imported? then names != names'
                else digest(DomainLists.Join(names)) != digest(DomainLists.Join(names')))
            then CertificateIn(Some(state), Some(cipher), SecretKey(kind', names', digest))
            else if |key| >= 1 && |cert| >= 1 then Pair(key, cert) else Error
  {
    SecretKeysDiffer(kind, names, kind', names', digest);
    CertificateRoundTrip(cipher, nonce, key, cert);
  }

  /** An imported certificate is listed under its name, and no other kind of certificate is. */
  lemma ListedIffImported(kind: TlsType, names: seq<string>, digest: string -> string, n: string)
    requires SecretKey(kind, names, digest) != ""
    ensures SecretKey(kind, names, digest) == IMPORTED_PREFIX + n <==> kind.Imported? && names == [n]
  {
    var s := SecretKey(kind, names, digest);
    assert s[5] == (if kind.Imported? then 'i' else if kind.Acme? then 'a' else 's');
    assert (IMPORTED_PREFIX + n)[5] == 'i';
    if kind.Imported? {
      assert s[|IMPORTED_PREFIX|..] == names[0] && (IMPORTED_PREFIX + n)[|IMPORTED_PREFIX|..] == n;
    }
  }
}
