/** The hot-wallet vault: a keystream cipher computed block by block, authenticated
    encryption of the key, and the import / unlock / lock / clear machine over a sidecar.

    The keyed hash, the key derivation, the encodings and the key format are parameters;
    what is assumed of them is `Sound`, their lengths and their round trips. */
module HotWallet {
  import opened Options

  type Bytes = seq<bv8>

  datatype Crypto = Crypto(
    hmac: (Bytes, Bytes) -> Bytes,
    derive: (string, Bytes) -> Bytes,
    encode64: Bytes -> string,
    decode64: string -> Option<Bytes>,
    pack: (Bytes, string) -> Bytes,
    unpack: Bytes -> Option<(Bytes, string)>,
    parse: string -> Option<Bytes>,
    fromBytes: Bytes -> Option<Bytes>,
    publicKey: Bytes -> string)

  const BLOCK := 32
  const MAX_BLOCKS := 0x1_0000_0000

  ghost predicate Sound(c: Crypto) {
    && (forall k, m :: |c.hmac(k, m)| == BLOCK)
    && (forall p, s :: |c.derive(p, s)| == 64)
    && (forall b :: c.decode64(c.encode64(b)) == Some(b))
    && (forall k, p :: c.unpack(c.pack(k, p)) == Some((k, p)))
    && (forall t :: c.parse(t).Some? ==> c.fromBytes(c.parse(t).value) == c.parse(t))
  }

  // ---------- the keystream ----------

  function ByteOf(x: nat): bv8
    requires x < 0x100
  {
    x as bv8
  }

  /** The four-byte big-endian counter; beyond four bytes the conversion raises. */
  function BigEndian4(i: nat): Bytes
    requires i < MAX_BLOCKS
  {
    [ByteOf(i / 0x100_0000), ByteOf(i / 0x1_0000 % 0x100), ByteOf(i / 0x100 % 0x100), ByteOf(i % 0x100)]
  }

  function Block(c: Crypto, key: Bytes, nonce: Bytes, i: nat): Bytes
    requires i < MAX_BLOCKS
  {
    c.hmac(key, nonce + BigEndian4(i))
  }

  predicate Fits(payload: Bytes) {
    |payload| <= BLOCK * MAX_BLOCKS
  }

  lemma BlockOfByte(payload: Bytes, i: nat)
    requires Fits(payload) && i < |payload|
    ensures i / BLOCK < MAX_BLOCKS
  {
  }

  function KeyByte(c: Crypto, key: Bytes, nonce: Bytes, i: nat): bv8
    requires i / BLOCK < MAX_BLOCKS && |Block(c, key, nonce, i / BLOCK)| == BLOCK
  {
    Block(c, key, nonce, i / BLOCK)[i % BLOCK]
  }

  /** The cipher, byte by byte: each byte is combined with its byte of the keystream. */
  ghost function Xor(c: Crypto, payload: Bytes, key: Bytes, nonce: Bytes): (r: Bytes)
    requires Sound(c) && Fits(payload)
    ensures |r| == |payload|
  {
    seq(|payload|, i requires 0 <= i < |payload| =>
      BlockOfByte(payload, i);
      payload[i] ^ KeyByte(c, key, nonce, i))
  }

  lemma ByteOfBlock(counter: nat, index: nat)
    requires index < BLOCK
    ensures (counter * BLOCK + index) / BLOCK == counter && (counter * BLOCK + index) % BLOCK == index
  {
  }

  /** The bytes written so far are those of the cipher. */
  ghost predicate Done(c: Crypto, output: Bytes, payload: Bytes, key: Bytes, nonce: Bytes)
    requires Sound(c) && |output| <= |payload|
  {
    forall i :: 0 <= i < |output| ==> i / BLOCK < MAX_BLOCKS && output[i] == payload[i] ^ KeyByte(c, key, nonce, i)
  }

  /** One more block of output continues what has been written. */
  lemma DoneBlock(c: Crypto, output: Bytes, next: Bytes, payload: Bytes, key: Bytes, nonce: Bytes, counter: nat)
    requires Sound(c) && counter < MAX_BLOCKS
    requires |output| == counter * BLOCK && |next| <= BLOCK && |output| + |next| <= |payload|
    requires Done(c, output, payload, key, nonce)
    requires forall j :: 0 <= j < |next| ==> next[j] == payload[|output| + j] ^ Block(c, key, nonce, counter)[j]
    ensures Done(c, output + next, payload, key, nonce)
  {
    hide BigEndian4;
    forall i | 0 <= i < |output + next|
      ensures i / BLOCK < MAX_BLOCKS && (output + next)[i] == payload[i] ^ KeyByte(c, key, nonce, i)
    {
      if i >= |output| {
        ByteOfBlock(counter, i - |output|);
      }
    }
  }

  /** The inner loop: one block of the keystream over the payload at an offset. */
  method XorBlock(output: array<bv8>, payload: Bytes, block: Bytes, offset: nat, n: nat)
    requires output.Length == |payload| && offset + n <= |payload| && n <= |block|
    modifies output
    ensures output[..offset] == old(output[..offset])
    ensures forall j :: 0 <= j < n ==> output[offset..offset + n][j] == payload[offset + j] ^ block[j]
  {
    for index := 0 to n
      invariant forall i :: 0 <= i < offset ==> output[i] == old(output[i])
      invariant forall j :: 0 <= j < index ==> output[offset + j] == payload[offset + j] ^ block[j]
    {
      output[offset + index] := payload[offset + index] ^ block[index];
    }
  }

  /** One turn of the outer loop: the next block, cut at the end of the payload. */
  method NextBlock(c: Crypto, output: array<bv8>, payload: Bytes, key: Bytes, nonce: Bytes, offset: nat, counter: nat)
    returns (n: nat)
    requires Sound(c) && counter < MAX_BLOCKS
    requires output.Length == |payload| && offset == counter * BLOCK < |payload|
    requires Done(c, output[..offset], payload, key, nonce)
    modifies output
    ensures n == if |payload| - offset < BLOCK then |payload| - offset else BLOCK
    ensures Done(c, output[..offset + n], payload, key, nonce)
  {
    hide Block, KeyByte, BigEndian4, Xor, Done;
    var block := c.hmac(key, nonce + BigEndian4(counter));
    n := if |payload| - offset < |block| then |payload| - offset else |block|;
    XorBlock(output, payload, block, offset, n);
    BlockOf(c, key, nonce, counter);
    DoneBlock(c, output[..offset], output[offset..offset + n], payload, key, nonce, counter);
    assert output[..offset] + output[offset..offset + n] == output[..offset + n];
  }

  /** The cipher as computed, block by block; `None` when the counter overflows. */
  method XorStream(c: Crypto, payload: Bytes, key: Bytes, nonce: Bytes) returns (r: Option<Bytes>)
    requires Sound(c)
    ensures r == if Fits(payload) then Some(Xor(c, payload, key, nonce)) else None
  {
    hide KeyByte, Xor, Sound;
    var output := new bv8[|payload|];
    var offset, counter := 0, 0;
    while offset < |payload|
      invariant offset <= |payload| && counter <= MAX_BLOCKS
      invariant offset == if counter * BLOCK <= |payload| then counter * BLOCK else |payload|
      invariant Done(c, output[..offset], payload, key, nonce)
    {
      if counter >= MAX_BLOCKS {
        return None;
      }
      var n := NextBlock(c, output, payload, key, nonce, offset, counter);
      offset := offset + n;
      counter := counter + 1;
    }
    assert output[..offset] == output[..];
    DoneIsXor(c, output[..], payload, key, nonce);
    return Some(output[..]);
  }

  lemma BlockOf(c: Crypto, key: Bytes, nonce: Bytes, i: nat)
    requires i < MAX_BLOCKS
    ensures Block(c, key, nonce, i) == c.hmac(key, nonce + BigEndian4(i))
  {
  }

  lemma DoneIsXor(c: Crypto, output: Bytes, payload: Bytes, key: Bytes, nonce: Bytes)
    requires Sound(c) && Fits(payload) && |output| == |payload| && Done(c, output, payload, key, nonce)
    ensures output == Xor(c, payload, key, nonce)
  {
  }

  /** The cipher is its own inverse. */
  lemma XorTwice(c: Crypto, payload: Bytes, key: Bytes, nonce: Bytes)
    requires Sound(c) && Fits(payload)
    ensures Xor(c, Xor(c, payload, key, nonce), key, nonce) == payload
  {
    var once := Xor(c, payload, key, nonce);
    var twice := Xor(c, once, key, nonce);
    forall i | 0 <= i < |payload|
      ensures twice[i] == payload[i]
    {
      BlockOfByte(payload, i);
      XorCancels(payload[i], KeyByte(c, key, nonce, i));
    }
  }

  lemma XorCancels(x: bv8, k: bv8)
    ensures (x ^ k) ^ k == x
  {
  }

  // ---------- authenticated encryption ----------

  datatype Sealed = Sealed(salt: string, nonce: string, ciphertext: string, mac: string)

  datatype Error = PasswordRequired | TooLong | BadEncoding | PasswordInvalid | BadKey | NotImported
    | SidecarMismatch | Locked | ExpectedRequired | WrongSigner

  function EncKey(c: Crypto, password: string, salt: Bytes): Bytes
    requires |c.derive(password, salt)| == 64
  {
    c.derive(password, salt)[..32]
  }

  function MacKey(c: Crypto, password: string, salt: Bytes): Bytes
    requires |c.derive(password, salt)| == 64
  {
    c.derive(password, salt)[32..]
  }

  ghost function Encrypt(c: Crypto, plaintext: Bytes, password: string, salt: Bytes, nonce: Bytes):
    Result<Sealed, Error>
    requires Sound(c)
  {
    if password == "" then Err(PasswordRequired)
    else if !Fits(plaintext) then Err(TooLong)
    else
      var ciphertext := Xor(c, plaintext, EncKey(c, password, salt), nonce);
      var mac := c.hmac(MacKey(c, password, salt), nonce + ciphertext);
      Ok(Sealed(c.encode64(salt), c.encode64(nonce), c.encode64(ciphertext), c.encode64(mac)))
  }

  ghost function Decrypt(c: Crypto, s: Sealed, password: string): Result<Bytes, Error>
    requires Sound(c)
  {
    var salt, nonce := c.decode64(s.salt), c.decode64(s.nonce);
    var ciphertext, mac := c.decode64(s.ciphertext), c.decode64(s.mac);
    if salt.None? || nonce.None? || ciphertext.None? || mac.None? then Err(BadEncoding)
    else if mac.value != c.hmac(MacKey(c, password, salt.value), nonce.value + ciphertext.value) then
      Err(PasswordInvalid)
    else if !Fits(ciphertext.value) then Err(TooLong)
    else Ok(Xor(c, ciphertext.value, EncKey(c, password, salt.value), nonce.value))
  }

  /** Decryption undoes encryption under the same password. */
  lemma DecryptUndoesEncrypt(c: Crypto, plaintext: Bytes, password: string, salt: Bytes, nonce: Bytes)
    requires Sound(c) && Encrypt(c, plaintext, password, salt, nonce).Ok?
    ensures Decrypt(c, Encrypt(c, plaintext, password, salt, nonce).value, password) == Ok(plaintext)
  {
    XorTwice(c, plaintext, EncKey(c, password, salt), nonce);
  }

  // ---------- the vault ----------

  datatype Sidecar = Sidecar(publicKey: string, walletLabel: string, sealed: Sealed)

  datatype Vault = Vault(keypair: Option<Bytes>, sidecar: Option<Sidecar>)

  ghost function Import(c: Crypto, v: Vault, text: string, password: string, name: string, salt: Bytes, nonce: Bytes):
    (Vault, Option<Error>)
    requires Sound(c)
  {
    if c.parse(text).None? then (v, Some(BadKey))
    else
      var key := c.parse(text).value;
      match Encrypt(c, c.pack(key, c.publicKey(key)), password, salt, nonce)
      case Err(e) => (v, Some(e))
      case Ok(sealed) => (Vault(Some(key), Some(Sidecar(c.publicKey(key), name, sealed))), None)
  }

  ghost function Unlock(c: Crypto, v: Vault, password: string): (Vault, Option<Error>)
    requires Sound(c)
  {
    if v.sidecar.None? then (v, Some(NotImported))
    else match Decrypt(c, v.sidecar.value.sealed, password)
      case Err(e) => (v, Some(e))
      case Ok(plaintext) =>
        if c.unpack(plaintext).None? then (v, Some(BadEncoding))
        else
          var (bytes, encrypted) := c.unpack(plaintext).value;
          if c.fromBytes(bytes).None? then (v, Some(BadKey))
          else
            var key := c.fromBytes(bytes).value;
            if c.publicKey(key) != encrypted || c.publicKey(key) != v.sidecar.value.publicKey then
              (v, Some(SidecarMismatch))
            else (v.(keypair := Some(key)), None)
  }

  /** The check before every signature. */
  function RequireUnlocked(c: Crypto, v: Vault, expected: string): Result<Bytes, Error> {
    if v.keypair.None? then Err(Locked)
    else if expected == "" then Err(ExpectedRequired)
    else if c.publicKey(v.keypair.value) != expected then Err(WrongSigner)
    else if (if v.sidecar.None? then "" else v.sidecar.value.publicKey) != expected then Err(SidecarMismatch)
    else Ok(v.keypair.value)
  }

  class HotWalletVault {
    const c: Crypto
    var keypair: Option<Bytes>
    var sidecar: Option<Sidecar>

    function View(): Vault
      reads this
    {
      Vault(keypair, sidecar)
    }

    constructor (c: Crypto, sidecar: Option<Sidecar>)
      ensures this.c == c && View() == Vault(None, sidecar)
    {
      this.c, this.keypair, this.sidecar := c, None, sidecar;
    }

    method SealBytes(plaintext: Bytes, password: string, salt: Bytes, nonce: Bytes) returns (r: Result<Sealed, Error>)
      requires Sound(c)
      ensures r == Encrypt(c, plaintext, password, salt, nonce)
    {
      if password == "" {
        return Err(PasswordRequired);
      }
      var derived := c.derive(password, salt);
      var ciphertext := XorStream(c, plaintext, derived[..32], nonce);
      if ciphertext.None? {
        return Err(TooLong);
      }
      var mac := c.hmac(derived[32..], nonce + ciphertext.value);
      return Ok(Sealed(c.encode64(salt), c.encode64(nonce), c.encode64(ciphertext.value), c.encode64(mac)));
    }

    method OpenBytes(s: Sealed, password: string) returns (r: Result<Bytes, Error>)
      requires Sound(c)
      ensures r == Decrypt(c, s, password)
    {
      var salt, nonce := c.decode64(s.salt), c.decode64(s.nonce);
      var ciphertext, mac := c.decode64(s.ciphertext), c.decode64(s.mac);
      if salt.None? || nonce.None? || ciphertext.None? || mac.None? {
        return Err(BadEncoding);
      }
      var derived := c.derive(password, salt.value);
      if mac.value != c.hmac(derived[32..], nonce.value + ciphertext.value) {
        return Err(PasswordInvalid);
      }
      var plaintext := XorStream(c, ciphertext.value, derived[..32], nonce.value);
      if plaintext.None? {
        return Err(TooLong);
      }
      return Ok(plaintext.value);
    }

    method ImportPrivateKey(text: string, password: string, name: string, salt: Bytes, nonce: Bytes)
      returns (error: Option<Error>)
      requires Sound(c)
      modifies this
      ensures (View(), error) == Import(c, old(View()), text, password, name, salt, nonce)
    {
      var parsed := c.parse(text);
      if parsed.None? {
        return Some(BadKey);
      }
      var key := parsed.value;
      var encrypted := SealBytes(c.pack(key, c.publicKey(key)), password, salt, nonce);
      if encrypted.Err? {
        return Some(encrypted.error);
      }
      sidecar := Some(Sidecar(c.publicKey(key), name, encrypted.value));
      keypair := Some(key);
      return None;
    }

    method UnlockWith(password: string) returns (error: Option<Error>)
      requires Sound(c)
      modifies this`keypair
      ensures (View(), error) == Unlock(c, old(View()), password)
    {
      if sidecar == None {
        return Some(NotImported);
      }
      var decrypted := OpenBytes(sidecar.value.sealed, password);
      if decrypted.Err? {
        return Some(decrypted.error);
      }
      var data := c.unpack(decrypted.value);
      if data.None? {
        return Some(BadEncoding);
      }
      var key := c.fromBytes(data.value.0);
      if key.None? {
        return Some(BadKey);
      }
      var actual := c.publicKey(key.value);
      if actual != data.value.1 || actual != sidecar.value.publicKey {
        return Some(SidecarMismatch);
      }
      keypair := key;
      return None;
    }

    method Lock()
      modifies this`keypair
      ensures View() == old(View()).(keypair := None)
    {
      keypair := None;
    }

    method Clear()
      modifies this
      ensures View() == Vault(None, None)
    {
      keypair, sidecar := None, None;
    }
  }

  // ---------- runs ----------

  datatype Op =
    | DoImport(text: string, password: string, name: string, salt: Bytes, nonce: Bytes)
    | DoUnlock(password: string)
    | DoLock
    | DoClear

  /** The key and the password of the last successful import that has not been cleared. */
  datatype Track = Track(v: Vault, last: Option<(Bytes, string)>)

  ghost function Step(c: Crypto, t: Track, op: Op): Track
    requires Sound(c)
  {
    match op
    case DoImport(text, password, name, salt, nonce) =>
      var (v, error) := Import(c, t.v, text, password, name, salt, nonce);
      Track(v, if error.None? then Some((c.parse(text).value, password)) else t.last)
    case DoUnlock(password) => t.(v := Unlock(c, t.v, password).0)
    case DoLock => t.(v := t.v.(keypair := None))
    case DoClear => Track(Vault(None, None), None)
  }

  ghost function Run(c: Crypto, t: Track, ops: seq<Op>): Track
    requires Sound(c)
    decreases |ops|
  {
    if ops == [] then t else Run(c, Step(c, t, ops[0]), ops[1..])
  }

  const EMPTY := Track(Vault(None, None), None)

  /** The sidecar seals the last imported key under its password. */
  ghost predicate SealedBy(c: Crypto, s: Sidecar, key: Bytes, password: string)
    requires Sound(c)
  {
    && s.publicKey == c.publicKey(key) && c.fromBytes(key) == Some(key)
    && exists salt, nonce :: Encrypt(c, c.pack(key, c.publicKey(key)), password, salt, nonce) == Ok(s.sealed)
  }

  ghost predicate Inv(c: Crypto, t: Track)
    requires Sound(c)
  {
    && (t.v.sidecar.Some? <==> t.last.Some?)
    && (t.v.sidecar.Some? ==> SealedBy(c, t.v.sidecar.value, t.last.value.0, t.last.value.1))
    && (t.v.keypair.Some? ==> t.v.sidecar.Some? && c.publicKey(t.v.keypair.value) == t.v.sidecar.value.publicKey)
  }

  lemma StepKeepsInv(c: Crypto, t: Track, op: Op)
    requires Sound(c) && Inv(c, t)
    ensures Inv(c, Step(c, t, op))
  {
    hide Encrypt, Decrypt;
  }

  lemma {:induction false} RunKeepsInv(c: Crypto, t: Track, ops: seq<Op>)
    requires Sound(c) && Inv(c, t)
    ensures Inv(c, Run(c, t, ops))
    decreases |ops|
  {
    hide Inv, Step;
    if ops != [] {
      StepKeepsInv(c, t, ops[0]);
      RunKeepsInv(c, Step(c, t, ops[0]), ops[1..]);
    }
  }

  /** Over any run of imports, unlocks, locks and clears that leaves the sidecar alone, with
      any passwords and with nothing assumed about forgeries: the unlocked signer has the
      public key of the sidecar, which is that of the last imported key, and it is that
      key if no two keys share a public key. */
  lemma UnlockedIsLastImported(c: Crypto, ops: seq<Op>)
    requires Sound(c)
    ensures var t := Run(c, EMPTY, ops);
      t.v.keypair.Some? ==>
        && t.v.sidecar.Some? && t.last.Some?
        && c.publicKey(t.v.keypair.value) == t.v.sidecar.value.publicKey == c.publicKey(t.last.value.0)
        && ((forall a, b :: c.publicKey(a) == c.publicKey(b) ==> a == b) ==> t.v.keypair.value == t.last.value.0)
  {
    RunKeepsInv(c, EMPTY, ops);
  }

  /** After any run that has imported a key, its own password unlocks exactly that key. */
  lemma OwnPasswordUnlocks(c: Crypto, ops: seq<Op>)
    requires Sound(c) && Run(c, EMPTY, ops).last.Some?
    ensures var t := Run(c, EMPTY, ops);
      Unlock(c, t.v, t.last.value.1) == (t.v.(keypair := Some(t.last.value.0)), None)
  {
    RunKeepsInv(c, EMPTY, ops);
    var t := Run(c, EMPTY, ops);
    var (key, password) := t.last.value;
    var plaintext := c.pack(key, c.publicKey(key));
    var salt, nonce :| Encrypt(c, plaintext, password, salt, nonce) == Ok(t.v.sidecar.value.sealed);
    DecryptUndoesEncrypt(c, plaintext, password, salt, nonce);
  }

  /** After any run, a signature is allowed exactly for the unlocked signer's own public
      key: the sidecar check never refuses a signer that the other checks accept. */
  lemma SignerIsExpected(c: Crypto, ops: seq<Op>, expected: string)
    requires Sound(c)
    ensures var v := Run(c, EMPTY, ops).v;
      && (RequireUnlocked(c, v, expected).Ok? <==>
            v.keypair.Some? && expected != "" && c.publicKey(v.keypair.value) == expected)
      && RequireUnlocked(c, v, expected) != Err(SidecarMismatch)
  {
    RunKeepsInv(c, EMPTY, ops);
  }
}
