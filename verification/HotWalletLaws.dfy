/** The sealed format of `HotWallet` byte by byte, and what the last operation of a run leaves. */
module HotWalletLaws {
  import opened Options
  import opened HotWallet

  // ---------- the sealed format ----------

  /** The counter of a block is written in four bytes, the most significant first: zero is four zeros, and
      a number shifted by one byte is its last three bytes and the new one. */
  lemma CounterIsBigEndian(i: nat, low: nat)
    requires i < 0x100_0000 && low < 256
    ensures BigEndian4(0) == [0, 0, 0, 0]
    ensures BigEndian4(i * 256 + low) == BigEndian4(i)[1..] + [low as bv8]
  {
    ZeroByte();
    ShiftedDigits(i, low);
    assert ByteOf(low) == low as bv8;
    hide ByteOf;
  }

  lemma ZeroByte()
    ensures ByteOf(0) == 0
  {
  }

  lemma ShiftedDigits(i: nat, low: nat)
    requires i < 0x100_0000 && low < 256
    ensures var n := i * 256 + low;
      && n < 0x1_0000_0000
      && n / 0x100_0000 == i / 0x1_0000 % 0x100 && n / 0x1_0000 % 0x100 == i / 0x100 % 0x100
      && n / 0x100 % 0x100 == i % 0x100 && n % 0x100 == low
  {
    var n := i * 256 + low;
    assert n / 0x100 == i && n % 0x100 == low;
    assert n / 0x1_0000 == i / 0x100 && n / 0x100_0000 == i / 0x1_0000;
  }

  /** Byte `i` is combined with byte `i % 32` of the keyed hash of the nonce and the counter `i / 32`. */
  ghost predicate IsCipher(c: Crypto, input: Bytes, output: Bytes, key: Bytes, nonce: Bytes) {
    && |output| == |input|
    && forall i :: 0 <= i < |input| ==>
        && i / 32 < 0x1_0000_0000
        && |c.hmac(key, nonce + BigEndian4(i / 32))| == 32
        && output[i] == input[i] ^ c.hmac(key, nonce + BigEndian4(i / 32))[i % 32]
  }

  lemma XorIsCipher(c: Crypto, input: Bytes, key: Bytes, nonce: Bytes)
    requires Sound(c) && Fits(input)
    ensures IsCipher(c, input, Xor(c, input, key, nonce), key, nonce)
  {
    hide BigEndian4;
    forall i | 0 <= i < |input|
      ensures i / 32 < 0x1_0000_0000
    {
      BlockOfByte(input, i);
    }
  }

  /** What is sealed: the first half of the derived key encrypts, the second half signs the nonce and
      the ciphertext together; it fails without a password, or if the counter would overflow. */
  lemma SealedFormat(c: Crypto, plaintext: Bytes, password: string, salt: Bytes, nonce: Bytes)
    returns (ciphertext: Bytes)
    requires Sound(c)
    ensures |c.derive(password, salt)| == 64
    ensures var d := c.derive(password, salt);
      match Encrypt(c, plaintext, password, salt, nonce)
      case Err(e) =>
        if password == "" then e == PasswordRequired else |plaintext| > 32 * 0x1_0000_0000 && e == TooLong
      case Ok(s) =>
        && password != "" && |plaintext| <= 32 * 0x1_0000_0000
        && IsCipher(c, plaintext, ciphertext, d[..32], nonce)
        && s == Sealed(c.encode64(salt), c.encode64(nonce), c.encode64(ciphertext),
                       c.encode64(c.hmac(d[32..], nonce + ciphertext)))
  {
    hide Xor, IsCipher;
    ciphertext := [];
    if Fits(plaintext) {
      ciphertext := Xor(c, plaintext, c.derive(password, salt)[..32], nonce);
      XorIsCipher(c, plaintext, c.derive(password, salt)[..32], nonce);
    }
  }

  /** What is opened: a sealed text whose four fields decode and whose signature is that of this
      password, and what comes out is the ciphertext enciphered once more. */
  lemma OpenedFormat(c: Crypto, s: Sealed, password: string)
    requires Sound(c)
    ensures var salt, nonce, text, mac := c.decode64(s.salt), c.decode64(s.nonce), c.decode64(s.ciphertext),
        c.decode64(s.mac);
      if salt == None || nonce == None || text == None || mac == None then Decrypt(c, s, password) == Err(BadEncoding)
      else
        var d := c.derive(password, salt.value);
        && |d| == 64
        && (if c.hmac(d[32..], nonce.value + text.value) != mac.value then
              Decrypt(c, s, password) == Err(PasswordInvalid)
            else if |text.value| > 32 * 0x1_0000_0000 then Decrypt(c, s, password) == Err(TooLong)
            else
              && Decrypt(c, s, password).Ok?
              && IsCipher(c, text.value, Decrypt(c, s, password).value, d[..32], nonce.value))
  {
    hide Xor, IsCipher;
    var salt, nonce, text := c.decode64(s.salt), c.decode64(s.nonce), c.decode64(s.ciphertext);
    if salt.Some? && nonce.Some? && text.Some? && Fits(text.value) {
      XorIsCipher(c, text.value, c.derive(password, salt.value)[..32], nonce.value);
    }
  }

  // ---------- the vault ----------

  /** What a password unlocks: the plaintext holds a key and a public key, which is that of the key
      and that of the sidecar. */
  predicate HoldsKey(c: Crypto, sidecar: Sidecar, plaintext: Bytes, key: Bytes) {
    && c.unpack(plaintext).Some?
    && c.fromBytes(c.unpack(plaintext).value.0) == Some(key)
    && c.publicKey(key) == c.unpack(plaintext).value.1
    && c.publicKey(key) == sidecar.publicKey
  }

  /** Why a plaintext that opened holds no key of the sidecar: it is no packed key, its bytes are no key, or
      the public keys differ. */
  function Misfit(c: Crypto, plaintext: Bytes): Error {
    match c.unpack(plaintext)
    case None => BadEncoding
    case Some(packed) => if c.fromBytes(packed.0) == None then BadKey else SidecarMismatch
  }

  /** An unlock succeeds exactly if there is a sidecar, it opens, and holds a key; then that key is
      the signer, and otherwise nothing changes. */
  lemma UnlockMeans(c: Crypto, v: Vault, password: string)
    requires Sound(c)
    ensures var after, error := Unlock(c, v, password).0, Unlock(c, v, password).1;
      && (error == None <==>
            && v.sidecar.Some? && Decrypt(c, v.sidecar.value.sealed, password).Ok?
            && exists key :: HoldsKey(c, v.sidecar.value, Decrypt(c, v.sidecar.value.sealed, password).value, key))
      && (error != None ==> after == v)
      && (error == None ==>
            && after.sidecar == v.sidecar && after.keypair.Some?
            && HoldsKey(c, v.sidecar.value, Decrypt(c, v.sidecar.value.sealed, password).value, after.keypair.value))
      && (v.sidecar == None ==> error == Some(NotImported))
      && (v.sidecar.Some? && Decrypt(c, v.sidecar.value.sealed, password).Err? ==>
            error == Some(Decrypt(c, v.sidecar.value.sealed, password).error))
      && (v.sidecar.Some? && Decrypt(c, v.sidecar.value.sealed, password).Ok? && error != None ==>
            error == Some(Misfit(c, Decrypt(c, v.sidecar.value.sealed, password).value)))
  {
    hide Decrypt;
    var after, error := Unlock(c, v, password).0, Unlock(c, v, password).1;
    if error == None {
      assert HoldsKey(c, v.sidecar.value, Decrypt(c, v.sidecar.value.sealed, password).value, after.keypair.value);
    }
  }

  /** An import succeeds exactly if the text is a key, there is a password, and the packed key is not
      too long; then the signer, the sidecar and what it seals are those of the key, and otherwise
      nothing changes. */
  lemma ImportMeans(c: Crypto, v: Vault, text: string, password: string, name: string, salt: Bytes, nonce: Bytes)
    requires Sound(c)
    ensures var after, error := Import(c, v, text, password, name, salt, nonce).0,
        Import(c, v, text, password, name, salt, nonce).1;
      match c.parse(text)
      case None => after == v && error == Some(BadKey)
      case Some(key) =>
        if password == "" then after == v && error == Some(PasswordRequired)
        else if |c.pack(key, c.publicKey(key))| > 32 * 0x1_0000_0000 then after == v && error == Some(TooLong)
        else
          && error == None
          && after.keypair == Some(key)
          && after.sidecar.Some?
          && after.sidecar.value.publicKey == c.publicKey(key) && after.sidecar.value.walletLabel == name
          && after.sidecar.value.sealed.salt == c.encode64(salt)
          && after.sidecar.value.sealed.nonce == c.encode64(nonce)
          && Decrypt(c, after.sidecar.value.sealed, password) == Ok(c.pack(key, c.publicKey(key)))
  {
    if c.parse(text).Some? && password != "" {
      var plaintext := c.pack(c.parse(text).value, c.publicKey(c.parse(text).value));
      if Fits(plaintext) {
        DecryptUndoesEncrypt(c, plaintext, password, salt, nonce);
      }
    }
    hide Xor, Decrypt;
  }

  // ---------- runs ----------

  lemma {:induction false} RunSnoc(c: Crypto, t: Track, ops: seq<Op>, op: Op)
    requires Sound(c)
    ensures Run(c, t, ops + [op]) == Step(c, Run(c, t, ops), op)
    decreases |ops|
  {
    hide Step;
    if ops == [] {
      assert ops + [op] == [op] && [op][1..] == [];
    } else {
      assert (ops + [op])[1..] == ops[1..] + [op];
      RunSnoc(c, Step(c, t, ops[0]), ops[1..], op);
    }
  }

  /** The text is a key, there is a password, and the packed key is not too long for the counter. */
  predicate IsImportable(c: Crypto, text: string, password: string) {
    && c.parse(text).Some? && password != ""
    && |c.pack(c.parse(text).value, c.publicKey(c.parse(text).value))| <= 32 * 0x1_0000_0000
  }

  /** Who can sign after any run is settled by its last operation: after a lock or a clear nobody;
      after the right password the last imported key, and after an import that key; a wrong password
      or a failed import leaves the signer as it was. */
  lemma LastOperationDecides(c: Crypto, ops: seq<Op>, op: Op)
    requires Sound(c)
    ensures var before, t := Run(c, EMPTY, ops), Run(c, EMPTY, ops + [op]);
      && (op == DoLock ==> t.v.keypair == None && t.v.sidecar == before.v.sidecar && t.last == before.last)
      && (op == DoClear ==> t == EMPTY)
      && (op.DoUnlock? ==>
            && t.v.sidecar == before.v.sidecar && t.last == before.last
            && (before.last.Some? && op.password == before.last.value.1 ==> t.v.keypair == Some(before.last.value.0))
            && (Unlock(c, before.v, op.password).1 != None ==> t == before))
      && (op.DoImport? && !IsImportable(c, op.text, op.password) ==> t == before)
      && (op.DoImport? && IsImportable(c, op.text, op.password) ==>
            && t.v.keypair == c.parse(op.text) && t.last == Some((c.parse(op.text).value, op.password))
            && t.v.sidecar.Some? && t.v.sidecar.value.walletLabel == op.name
            && t.v.sidecar.value.sealed.salt == c.encode64(op.salt)
            && t.v.sidecar.value.sealed.nonce == c.encode64(op.nonce))
  {
    RunSnoc(c, EMPTY, ops, op);
    var before := Run(c, EMPTY, ops);
    if op.DoUnlock? {
      UnlockMeans(c, before.v, op.password);
      if before.last.Some? && op.password == before.last.value.1 {
        OwnPasswordUnlocks(c, ops);
      }
    } else if op.DoImport? {
      ImportMeans(c, before.v, op.text, op.password, op.name, op.salt, op.nonce);
    }
    hide Unlock, Import, Run, Decrypt;
  }

  /** The check before a signature: which refusal comes first, and that the signer is returned exactly if
      its public key is the expected one and that of the sidecar. */
  lemma SignatureMeans(c: Crypto, v: Vault, expected: string)
    ensures RequireUnlocked(c, v, expected) ==
      match v.keypair
      case None => Err(HotWallet.Locked)
      case Some(key) =>
        if |expected| == 0 then Err(ExpectedRequired)
        else if c.publicKey(key) != expected then Err(WrongSigner)
        else if v.sidecar.Some? && v.sidecar.value.publicKey == c.publicKey(key) then Ok(key)
        else Err(SidecarMismatch)
  {
  }

  /** The check before a signature, after any run: which refusal comes first, and that the signer is
      returned when none does. */
  lemma SignatureIsDecided(c: Crypto, ops: seq<Op>, expected: string)
    requires Sound(c)
    ensures var v := Run(c, EMPTY, ops).v;
      RequireUnlocked(c, v, expected) ==
      match v.keypair
      case None => Err(HotWallet.Locked)
      case Some(key) =>
        if expected == "" then Err(ExpectedRequired)
        else if c.publicKey(key) == expected then Ok(key)
        else Err(WrongSigner)
  {
    RunKeepsInv(c, EMPTY, ops);
  }
}
