/**
 The vault key of one account across registration, sign-ins and password resets.

 Cryptography is symbolic: a key is the term of the secret and salt it was derived from, and a
 sealed value is the term of its key, nonce and plaintext, so it opens with that key and with no
 other. Random draws are parameters of each call. `Account` holds the row's columns and the two
 Redis entries; `Step` is its specification, and `Note` keeps, from the answers alone, what a
 user would have written down.
 */
module Vault {
  import opened Options

  // ---------------------------------------------------------------- hexadecimal

  type Byte = n: nat | n < 256

  function HexDigit(n: nat): char
    requires n < 16
  {
    "0123456789abcdef"[n]
  }

  function DigitValue(c: char): (r: Option<nat>)
    ensures r.Some? ==> r.value < 16
  {
    if '0' <= c <= '9' then Some(c as nat - '0' as nat)
    else if 'a' <= c <= 'f' then Some(c as nat - 'a' as nat + 10)
    else if 'A' <= c <= 'F' then Some(c as nat - 'A' as nat + 10)
    else None
  }

  lemma DigitRoundTrip(n: nat)
    requires n < 16
    ensures DigitValue(HexDigit(n)) == Some(n)
  {
  }

  function HexEncode(bytes: seq<Byte>): string {
    if bytes == [] then "" else [HexDigit(bytes[0] / 16), HexDigit(bytes[0] % 16)] + HexEncode(bytes[1..])
  }

  function HexDecode(s: string): Option<seq<Byte>> {
    if s == "" then Some([])
    else if |s| == 1 then None
    else match (DigitValue(s[0]), DigitValue(s[1]), HexDecode(s[2..]))
      case (Some(high), Some(low), Some(rest)) =>
        Some([16 * high + low] + rest)
      case (_, _, _) => None
  }

  lemma {:induction false} HexRoundTrip(bytes: seq<Byte>)
    ensures HexDecode(HexEncode(bytes)) == Some(bytes)
  {
    hide HexDigit, DigitValue, HexDecode;
    if bytes == [] {
      DecodeNothing();
    } else {
      HexRoundTrip(bytes[1..]);
      DecodePair(bytes[0], HexEncode(bytes[1..]), bytes[1..]);
      assert [bytes[0]] + bytes[1..] == bytes;
    }
  }

  lemma DecodeNothing()
    ensures HexDecode("") == Some([])
  {
  }

  lemma DecodePair(b: Byte, s: string, rest: seq<Byte>)
    requires HexDecode(s) == Some(rest)
    ensures HexDecode([HexDigit(b / 16), HexDigit(b % 16)] + s) == Some([b] + rest)
  {
    hide HexDigit, DigitValue;
    DigitRoundTrip(b / 16);
    DigitRoundTrip(b % 16);
    assert ([HexDigit(b / 16), HexDigit(b % 16)] + s)[2..] == s;
  }

  // ---------------------------------------------------------------- symbolic cryptography

  datatype Key = Derived(secret: string, salt: seq<Byte>) | ServerKey

  datatype Ciphertext = NoCiphertext | Sealed(key: Key, nonce: seq<Byte>, plaintext: string)

  datatype Tag = NoTag | Authentic(key: Key, nonce: seq<Byte>, plaintext: string)

  datatype EncryptedField = EncryptedField(ciphertext: Ciphertext, iv: string, tag: Tag)

  function DeriveKey(secret: string, saltHex: string): Option<Key> {
    match HexDecode(saltHex)
    case None => None
    case Some(salt) => Some(Derived(secret, salt))
  }

  function EncryptValue(key: Key, plaintext: string, nonce: seq<Byte>): EncryptedField {
    EncryptedField(Sealed(key, nonce, plaintext), HexEncode(nonce), Authentic(key, nonce, plaintext))
  }

  function Decrypt(key: Key, field: EncryptedField): Option<string> {
    match HexDecode(field.iv)
    case None => None
    case Some(nonce) =>
      match field.ciphertext
      case NoCiphertext => None
      case Sealed(k, n, p) => if k == key && n == nonce && field.tag == Authentic(k, n, p) then Some(p) else None
  }

  function EncryptMasterKey(masterKey: seq<Byte>, key: Key, nonce: seq<Byte>): EncryptedField {
    EncryptValue(key, HexEncode(masterKey), nonce)
  }

  /** A wrapped master key and the salt its wrapping key is derived with; the columns may be null. */
  datatype Wrapped = Wrapped(
    ciphertext: Option<Ciphertext>,
    iv: Option<string>,
    tag: Option<Tag>,
    salt: Option<string>)

  predicate IsSet(w: Wrapped) {
    && w.ciphertext.Some? && w.ciphertext.value != NoCiphertext
    && w.iv.Some? && w.iv.value != ""
    && w.tag.Some? && w.tag.value != NoTag
    && w.salt.Some? && w.salt.value != ""
  }

  function Wrap(masterKey: seq<Byte>, secret: string, salt: seq<Byte>, nonce: seq<Byte>): Wrapped {
    var field := EncryptMasterKey(masterKey, Derived(secret, salt), nonce);
    Wrapped(Some(field.ciphertext), Some(field.iv), Some(field.tag), Some(HexEncode(salt)))
  }

  /** The decrypted text of a wrapped key, still in hexadecimal. */
  function OpenHex(w: Wrapped, secret: string): Option<string> {
    if !IsSet(w) then None
    else match DeriveKey(secret, w.salt.value)
      case None => None
      case Some(key) => Decrypt(key, EncryptedField(w.ciphertext.value, w.iv.value, w.tag.value))
  }

  function Open(w: Wrapped, secret: string): Option<seq<Byte>> {
    match OpenHex(w, secret)
    case None => None
    case Some(hex) => HexDecode(hex)
  }

  /** What a wrapped key opens to, for every secret: the wrapped key for the wrapping secret, nothing else. */
  lemma OpenWrapped(masterKey: seq<Byte>, secret: string, salt: seq<Byte>, nonce: seq<Byte>, tried: string)
    requires salt != [] && nonce != []
    ensures var w := Wrap(masterKey, secret, salt, nonce);
            && IsSet(w)
            && OpenHex(w, tried) == (if tried == secret then Some(HexEncode(masterKey)) else None)
            && Open(w, tried) == (if tried == secret then Some(masterKey) else None)
  {
    HexRoundTrip(salt);
    HexRoundTrip(nonce);
    HexRoundTrip(masterKey);
  }

  // ---------------------------------------------------------------- the account

  const UNSET := Wrapped(None, None, None, None)

  /** The columns of the user row. `password` is the password its hash accepts; accounts of a directory or an
      identity provider have no hash and no vault. */
  datatype User = User(
    password: Option<string>,
    vault: Wrapped,
    recovery: Wrapped,
    vaultNeedsRecovery: bool,
    resetToken: Option<string>,
    resetExpiry: Option<int>)

  /** `live` and `recoverable` are the Redis entries of the unlocked vault. */
  datatype State = State(user: Option<User>, live: Option<EncryptedField>, recoverable: Option<EncryptedField>)

  const NOBODY := State(None, None, None)

  /** The random values one call draws. */
  datatype Draws = Draws(
    salt: seq<Byte>,
    nonce: seq<Byte>,
    recoveryKey: string,
    recoverySalt: seq<Byte>,
    recoveryNonce: seq<Byte>)

  predicate Generated(d: Draws) {
    d.salt != [] && d.nonce != [] && d.recoveryKey != "" && d.recoverySalt != [] && d.recoveryNonce != []
  }

  datatype SmsCheck = NotRequired | CodeMissing | CodeWrong | CodeRight

  datatype Op =
    | Provision
    | Register(password: string, addressOk: bool, signupEnabled: bool, breached: bool, masterKey: seq<Byte>,
        draws: Draws)
    | ForgotPassword(now: int, ttl: int, locked: bool, token: string)
    | CompleteReset(now: int, token: string, newPassword: string, sms: SmsCheck, recoveryKey: string,
                    breached: bool, draws: Draws)
    | SignIn(password: string, webAuthn: bool, caching: bool, nonce: seq<Byte>)
    | Expire(live: bool, recoverable: bool)

  datatype Outcome =
    | Refused
    | Provisioned
    | Registered(recoveryKey: string)
    | ResetSent
    | ResetDone(vaultPreserved: bool, newRecoveryKey: string)
    | SignedIn
    | VaultSessionFailed
    | Expired

  predicate DrawsGenerated(op: Op) {
    (op.Register? ==> Generated(op.draws)) && (op.CompleteReset? ==> Generated(op.draws))
  }

  predicate TokenAccepted(u: User, token: string, now: int) {
    u.resetToken == Some(token) && u.resetExpiry.Some? && now <= u.resetExpiry.value
  }

  predicate ResetAllowed(s: State, op: Op)
    requires op.CompleteReset?
  {
    && s.user.Some? && TokenAccepted(s.user.value, op.token, op.now)
    && (op.sms.NotRequired? || op.sms.CodeRight?)
    && !op.breached
  }

  function OpensRecovery(u: User, recoveryKey: string): Option<seq<Byte>> {
    if recoveryKey == "" then None else Open(u.recovery, recoveryKey)
  }

  function Step(s: State, op: Op): (State, Outcome) {
    match op
    case Provision =>
      if s.user.Some? then (s, Refused)
      else (s.(user := Some(User(None, UNSET, UNSET, false, None, None))), Provisioned)
    case Register(password, addressOk, signupEnabled, breached, masterKey, d) =>
      if password == "" || !addressOk || !signupEnabled then (s, Refused)
      else if s.user.Some? then (s, Registered(""))
      else if breached then (s, Refused)
      else
        var u := User(
          Some(password),
          Wrap(masterKey, password, d.salt, d.nonce),
          Wrap(masterKey, d.recoveryKey, d.recoverySalt, d.recoveryNonce),
          false, None, None);
        (s.(user := Some(u)), Registered(d.recoveryKey))
    case ForgotPassword(now, ttl, locked, token) =>
      if s.user.None? || s.user.value.password.None? || locked then (s, ResetSent)
      else (s.(user := Some(s.user.value.(resetToken := Some(token), resetExpiry := Some(now + ttl)))), ResetSent)
    case CompleteReset(now, token, newPassword, sms, recoveryKey, breached, d) =>
      if !ResetAllowed(s, op) then (s, Refused)
      else
        var u := s.user.value.(password := Some(newPassword), resetToken := None, resetExpiry := None);
        (match OpensRecovery(s.user.value, recoveryKey)
         case None => (State(Some(u.(vaultNeedsRecovery := true)), None, None), ResetDone(false, ""))
         case Some(masterKey) =>
           var rewrapped := u.(
             vault := Wrap(masterKey, newPassword, d.salt, d.nonce),
             recovery := Wrap(masterKey, d.recoveryKey, d.recoverySalt, d.recoveryNonce),
             vaultNeedsRecovery := false);
           (State(Some(rewrapped), None, None), ResetDone(true, d.recoveryKey)))
    case SignIn(password, webAuthn, caching, nonce) =>
      if s.user.None? || s.user.value.password != Some(password) then (s, Refused)
      else if webAuthn || !caching || !IsSet(s.user.value.vault) then (s, SignedIn)
      else
        (match OpenHex(s.user.value.vault, password)
         case None => (s, VaultSessionFailed)
         case Some(hex) =>
           var sealed := EncryptValue(ServerKey, hex, nonce);
           (State(s.user, Some(sealed), Some(sealed)), SignedIn))
    case Expire(live, recoverable) =>
      (State(s.user, if live then None else s.live, if recoverable then None else s.recoverable), Expired)
  }

  class Account {
    var registered: bool
    var passwordHash: Option<string>
    var vault: Wrapped
    var recovery: Wrapped
    var vaultNeedsRecovery: bool
    var resetToken: Option<string>
    var resetExpiry: Option<int>
    var live: Option<EncryptedField>
    var recoverable: Option<EncryptedField>

    ghost function Abs(): State
      reads this
    {
      State(
        if registered then Some(User(passwordHash, vault, recovery, vaultNeedsRecovery, resetToken, resetExpiry))
        else None,
        live, recoverable)
    }

    method Register(newPassword: string, addressOk: bool, signupEnabled: bool, breached: bool,
                    masterKey: seq<Byte>, draws: Draws)
      returns (outcome: Outcome)
      modifies this
      ensures (Abs(), outcome)
           == Step(old(Abs()), Op.Register(newPassword, addressOk, signupEnabled, breached, masterKey, draws))
    {
      hide IsSet, HexDecode, HexEncode, Decrypt;
      if newPassword == "" || !addressOk || !signupEnabled {
        return Refused;
      }
      if registered {
        return Registered("");
      }
      if breached {
        return Refused;
      }
      var encryptedVault := EncryptMasterKey(masterKey, Derived(newPassword, draws.salt), draws.nonce);
      var encryptedRecovery :=
        EncryptMasterKey(masterKey, Derived(draws.recoveryKey, draws.recoverySalt), draws.recoveryNonce);
      registered := true;
      passwordHash := Some(newPassword);
      vault := Wrapped(Some(encryptedVault.ciphertext), Some(encryptedVault.iv), Some(encryptedVault.tag),
                       Some(HexEncode(draws.salt)));
      recovery := Wrapped(Some(encryptedRecovery.ciphertext), Some(encryptedRecovery.iv), Some(encryptedRecovery.tag),
                          Some(HexEncode(draws.recoverySalt)));
      vaultNeedsRecovery := false;
      resetToken, resetExpiry := None, None;
      outcome := Registered(draws.recoveryKey);
    }

    /** The row of an account that signs in elsewhere. */
    method Provision() returns (outcome: Outcome)
      modifies this
      ensures (Abs(), outcome) == Step(old(Abs()), Op.Provision)
    {
      if registered {
        return Refused;
      }
      registered, passwordHash, vault, recovery := true, None, UNSET, UNSET;
      vaultNeedsRecovery, resetToken, resetExpiry := false, None, None;
      outcome := Provisioned;
    }

    method ForgotPassword(now: int, ttl: int, locked: bool, token: string) returns (outcome: Outcome)
      modifies this
      ensures (Abs(), outcome) == Step(old(Abs()), Op.ForgotPassword(now, ttl, locked, token))
    {
      if registered && passwordHash.Some? && !locked {
        resetToken, resetExpiry := Some(token), Some(now + ttl);
      }
      outcome := ResetSent;
    }

    method CompletePasswordReset(now: int, token: string, newPassword: string, sms: SmsCheck, recoveryKey: string,
                                 breached: bool, draws: Draws)
      returns (outcome: Outcome)
      modifies this
      ensures (Abs(), outcome)
           == Step(old(Abs()), CompleteReset(now, token, newPassword, sms, recoveryKey, breached, draws))
    {
      hide IsSet, HexDecode, HexEncode, Decrypt;
      if !registered || resetToken != Some(token) || resetExpiry.None? || resetExpiry.value < now {
        return Refused;
      }
      if sms == CodeMissing || sms == CodeWrong {
        return Refused;
      }
      if breached {
        return Refused;
      }
      var vaultPreserved := false;
      var newRecoveryKey := "";
      if recoveryKey != "" && IsSet(recovery) {
        var masterKey := Open(recovery, recoveryKey);
        if masterKey.Some? {
          newRecoveryKey := draws.recoveryKey;
          passwordHash := Some(newPassword);
          vault := Wrap(masterKey.value, newPassword, draws.salt, draws.nonce);
          recovery := Wrap(masterKey.value, newRecoveryKey, draws.recoverySalt, draws.recoveryNonce);
          vaultNeedsRecovery := false;
          resetToken, resetExpiry := None, None;
          vaultPreserved := true;
        }
      }
      if !vaultPreserved {
        passwordHash := Some(newPassword);
        vaultNeedsRecovery := true;
        resetToken, resetExpiry := None, None;
      }
      live, recoverable := None, None;
      outcome := ResetDone(vaultPreserved, newRecoveryKey);
    }

    /** The part of a password sign-in after the lockout check. */
    method SignIn(entered: string, webAuthn: bool, caching: bool, nonce: seq<Byte>) returns (outcome: Outcome)
      modifies this
      ensures (Abs(), outcome) == Step(old(Abs()), Op.SignIn(entered, webAuthn, caching, nonce))
    {
      hide IsSet, HexDecode, HexEncode, Decrypt;
      if !registered || passwordHash != Some(entered) {
        return Refused;
      }
      if !webAuthn {
        var stored := StoreVaultSession(entered, caching, nonce);
        if !stored {
          return VaultSessionFailed;
        }
      }
      outcome := SignedIn;
    }

    method StoreVaultSession(entered: string, caching: bool, nonce: seq<Byte>) returns (ok: bool)
      modifies this`live, this`recoverable
      ensures var attempted := caching && IsSet(vault);
              var hex := OpenHex(vault, entered);
              && ok == (attempted ==> hex.Some?)
              && live == (if attempted && hex.Some? then Some(EncryptValue(ServerKey, hex.value, nonce)) else old(live))
              && recoverable == (if attempted && hex.Some? then live else old(recoverable))
    {
      hide IsSet, HexDecode, HexEncode, Decrypt;
      if !caching || !IsSet(vault) {
        return true;
      }
      var hex := OpenHex(vault, entered);
      if hex.None? {
        return false;
      }
      var sealed := EncryptValue(ServerKey, hex.value, nonce);
      live := Some(sealed);
      recoverable := Some(sealed);
      ok := true;
    }
  }

  // ---------------------------------------------------------------- what the user wrote down

  /** The master key of the account, its present password, the password in force when the vault was last
      wrapped, and the recovery key issued last; `External` is an account that signs in elsewhere. It is kept from
      requests and answers alone. */
  datatype Ledger =
    | Blank
    | External
    | Ledger(masterKey: seq<Byte>, password: string, wrappedUnder: string, issued: string)

  function Note(l: Ledger, op: Op, outcome: Outcome): Ledger {
    match outcome
    case Registered(key) =>
      if op.Register? && l.Blank? then Ledger(op.masterKey, op.password, op.password, key) else l
    case ResetDone(preserved, key) =>
      if !op.CompleteReset? || !l.Ledger? then l
      else if preserved then l.(password := op.newPassword, wrappedUnder := op.newPassword, issued := key)
      else l.(password := op.newPassword)
    case Provisioned => if l.Blank? then External else l
    case Refused => l
    case ResetSent => l
    case SignedIn => l
    case VaultSessionFailed => l
    case Expired => l
  }

  function Run(ops: seq<Op>): (State, Ledger) {
    if ops == [] then (NOBODY, Blank)
    else
      var (s, l) := Run(ops[..|ops| - 1]);
      var op := ops[|ops| - 1];
      var (s', outcome) := Step(s, op);
      (s', Note(l, op, outcome))
  }

  ghost predicate AllGenerated(ops: seq<Op>) {
    forall i :: 0 <= i < |ops| ==> DrawsGenerated(ops[i])
  }

  /** A wrapped key opens to `masterKey` with `secret` and to nothing with any other secret. */
  ghost predicate OpensOnlyWith(w: Wrapped, secret: string, masterKey: seq<Byte>) {
    && IsSet(w)
    && OpenHex(w, secret) == Some(HexEncode(masterKey))
    && Open(w, secret) == Some(masterKey)
    && forall tried :: tried != secret ==> OpenHex(w, tried).None?
  }

  ghost predicate UserMatches(u: User, l: Ledger)
    requires l.Ledger?
  {
    && u.password == Some(l.password)
    && l.issued != ""
    && OpensOnlyWith(u.recovery, l.issued, l.masterKey)
    && OpensOnlyWith(u.vault, l.wrappedUnder, l.masterKey)
    && (!u.vaultNeedsRecovery ==> l.password == l.wrappedUnder)
  }

  ghost predicate SessionMatches(session: Option<EncryptedField>, l: Ledger) {
    session.Some? ==> l.Ledger? && Decrypt(ServerKey, session.value) == Some(HexEncode(l.masterKey))
  }

  ghost predicate Matches(s: State, l: Ledger) {
    && (s.user.Some? <==> !l.Blank?)
    && (l.Ledger? ==> UserMatches(s.user.value, l))
    && (l.External? ==> s.user.value.password.None? && s.user.value.resetToken.None?)
    && SessionMatches(s.live, l) && SessionMatches(s.recoverable, l)
  }

  lemma WrapOpensOnly(masterKey: seq<Byte>, secret: string, salt: seq<Byte>, nonce: seq<Byte>)
    requires salt != [] && nonce != []
    ensures OpensOnlyWith(Wrap(masterKey, secret, salt, nonce), secret, masterKey)
  {
    hide Wrap, OpenHex, Open, IsSet, HexEncode;
    forall tried ensures OpenHex(Wrap(masterKey, secret, salt, nonce), tried)
                         == (if tried == secret then Some(HexEncode(masterKey)) else None)
    {
      OpenWrapped(masterKey, secret, salt, nonce, tried);
    }
    OpenWrapped(masterKey, secret, salt, nonce, secret);
  }

  lemma SealedSession(hex: string, nonce: seq<Byte>)
    ensures Decrypt(ServerKey, EncryptValue(ServerKey, hex, nonce)) == Some(hex)
  {
    HexRoundTrip(nonce);
  }

  lemma StepKeepsMatch(s: State, l: Ledger, op: Op)
    requires Matches(s, l) && DrawsGenerated(op)
    ensures Matches(Step(s, op).0, Note(l, op, Step(s, op).1))
  {
    hide Wrap, OpenHex, Open, IsSet, HexEncode, Decrypt, EncryptValue, OpensOnlyWith;
    match op
    case Provision =>
    case Register(password, _, _, _, masterKey, d) =>
      WrapOpensOnly(masterKey, password, d.salt, d.nonce);
      WrapOpensOnly(masterKey, d.recoveryKey, d.recoverySalt, d.recoveryNonce);
    case ForgotPassword(_, _, _, _) =>
    case CompleteReset(_, _, newPassword, _, recoveryKey, _, d) =>
      if ResetAllowed(s, op) && l.Ledger? {
        RecoveryOpensIff(s, l, recoveryKey);
        WrapOpensOnly(l.masterKey, newPassword, d.salt, d.nonce);
        WrapOpensOnly(l.masterKey, d.recoveryKey, d.recoverySalt, d.recoveryNonce);
      }
    case SignIn(password, _, _, nonce) =>
      if l.Ledger? {
        VaultOpensIff(s, l, password);
        SealedSession(HexEncode(l.masterKey), nonce);
      }
    case Expire(_, _) =>
  }

  /** The recovery column opens with the recovery key issued last, to the original master key, and with no other. */
  lemma RecoveryOpensIff(s: State, l: Ledger, tried: string)
    requires Matches(s, l) && l.Ledger?
    ensures OpensRecovery(s.user.value, tried) == if tried == l.issued then Some(l.masterKey) else None
  {
  }

  lemma VaultOpensIff(s: State, l: Ledger, tried: string)
    requires Matches(s, l) && l.Ledger?
    ensures IsSet(s.user.value.vault)
    ensures OpenHex(s.user.value.vault, tried)
         == if tried == l.wrappedUnder then Some(HexEncode(l.masterKey)) else None
    ensures Open(s.user.value.vault, tried) == if tried == l.wrappedUnder then Some(l.masterKey) else None
  {
  }

  // ---------------------------------------------------------------- results over whole runs

  lemma {:induction false} RunKeepsMatch(ops: seq<Op>)
    requires AllGenerated(ops)
    ensures Matches(Run(ops).0, Run(ops).1)
  {
    hide Step, Note, Matches, DrawsGenerated;
    if ops == [] {
      NobodyMatches();
    } else {
      var before := ops[..|ops| - 1];
      RunKeepsMatch(before);
      StepKeepsMatch(Run(before).0, Run(before).1, ops[|ops| - 1]);
    }
  }

  lemma NobodyMatches()
    ensures Matches(NOBODY, Blank)
  {
  }

  /** After any chain of registrations, resets (with the right, a wrong or no recovery key) and sign-ins:
      the recovery key issued last opens the recovery column to the master key of the registration, no other
      does, and unless the row says that it needs recovery the present password opens the vault to that same key. */
  lemma VaultSurvivesEveryRun(ops: seq<Op>, tried: string)
    requires AllGenerated(ops) && Run(ops).1.Ledger?
    ensures var (s, l) := Run(ops);
            && s.user.Some? && s.user.value.password == Some(l.password)
            && OpensRecovery(s.user.value, tried) == (if tried == l.issued then Some(l.masterKey) else None)
            && (!s.user.value.vaultNeedsRecovery ==> Open(s.user.value.vault, l.password) == Some(l.masterKey))
  {
    hide Run, OpensRecovery, Open;
    RunKeepsMatch(ops);
    RecoveryOpensIff(Run(ops).0, Run(ops).1, tried);
    VaultOpensIff(Run(ops).0, Run(ops).1, Run(ops).1.password);
  }

  /** An accepted reset preserves the vault exactly when it presents the recovery key issued last, whatever
      resets came before it; and then it hands out the next one. */
  lemma ResetPreservesIff(ops: seq<Op>, reset: Op)
    requires AllGenerated(ops) && reset.CompleteReset? && DrawsGenerated(reset)
    requires Run(ops).1.Ledger? && ResetAllowed(Run(ops).0, reset)
    ensures var (s, l) := Run(ops);
            var (s', outcome) := Step(s, reset);
            && outcome == (if reset.recoveryKey ==
                 l.issued then ResetDone(true, reset.draws.recoveryKey) else ResetDone(false, ""))
            && s'.user.Some? && s'.user.value.vaultNeedsRecovery == (reset.recoveryKey != l.issued)
            && s'.live.None? && s'.recoverable.None?
  {
    hide Run, OpensRecovery, Wrap;
    RunKeepsMatch(ops);
    RecoveryOpensIff(Run(ops).0, Run(ops).1, reset.recoveryKey);
  }

  /** However many resets were done without the recovery key, one with it restores access to the original key. */
  lemma LateRecoveryRestores(ops: seq<Op>, reset: Op)
    requires AllGenerated(ops) && reset.CompleteReset? && DrawsGenerated(reset)
    requires Run(ops).1.Ledger? && ResetAllowed(Run(ops).0, reset) && reset.recoveryKey == Run(ops).1.issued
    ensures var user := Step(Run(ops).0, reset).0.user;
            && user.Some? && !user.value.vaultNeedsRecovery
            && Open(user.value.vault, reset.newPassword) == Some(Run(ops).1.masterKey)
            && OpensRecovery(user.value, reset.draws.recoveryKey) == Some(Run(ops).1.masterKey)
  {
    hide Run, Open, OpenHex, Wrap, IsSet;
    var (s, l) := Run(ops);
    RunKeepsMatch(ops);
    RecoveryOpensIff(s, l, reset.recoveryKey);
    WrapOpensOnly(l.masterKey, reset.newPassword, reset.draws.salt, reset.draws.nonce);
    WrapOpensOnly(l.masterKey, reset.draws.recoveryKey, reset.draws.recoverySalt, reset.draws.recoveryNonce);
  }

  /** Exactly when a sign-in with the right password goes through. The vault session is opened with the
      password just entered even when the row says that the vault needs recovery, so after a reset without
      the recovery key the new password signs in only if it is also the one the vault was wrapped under. */
  lemma RightPasswordSignsInIff(ops: seq<Op>, webAuthn: bool, caching: bool, nonce: seq<Byte>)
    requires AllGenerated(ops) && Run(ops).1.Ledger?
    ensures var (s, l) := Run(ops);
            Step(s, SignIn(l.password, webAuthn, caching, nonce)).1
            == if webAuthn || !caching || l.password == l.wrappedUnder then SignedIn else VaultSessionFailed
  {
    hide Run, OpenHex, IsSet, EncryptValue;
    RunKeepsMatch(ops);
    VaultOpensIff(Run(ops).0, Run(ops).1, Run(ops).1.password);
  }

  /** The failing family: any accepted reset without the right key whose new password differs from the one
      the vault is wrapped under locks the user's right password out of sign-in. */
  lemma ResetWithoutKeyBlocksSignIn(ops: seq<Op>, reset: Op, nonce: seq<Byte>)
    requires AllGenerated(ops) && reset.CompleteReset? && DrawsGenerated(reset)
    requires Run(ops).1.Ledger? && ResetAllowed(Run(ops).0, reset) && reset.recoveryKey != Run(ops).1.issued
    ensures Step(Step(Run(ops).0, reset).0, SignIn(reset.newPassword, false, true, nonce)).1
         == if reset.newPassword == Run(ops).1.wrappedUnder then SignedIn else VaultSessionFailed
  {
    hide Run, OpenHex, Open, Wrap, IsSet, EncryptValue;
    var (s, l) := Run(ops);
    RunKeepsMatch(ops);
    RecoveryOpensIff(s, l, reset.recoveryKey);
    VaultOpensIff(s, l, reset.newPassword);
  }

  /** An account without a password hash stays without one: it is never sent a reset token, so no reset of it is
      ever accepted, and no password signs in. */
  lemma ExternalAccountsStayExternal(ops: seq<Op>, reset: Op, password: string, nonce: seq<Byte>)
    requires AllGenerated(ops) && Run(ops).1.External? && reset.CompleteReset?
    ensures Step(Run(ops).0, reset) == (Run(ops).0, Refused)
    ensures Step(Run(ops).0, SignIn(password, false, true, nonce)) == (Run(ops).0, Refused)
    ensures Step(Run(ops).0, ForgotPassword(reset.now, 3600, false, reset.token)).0 == Run(ops).0
  {
    hide Run;
    RunKeepsMatch(ops);
  }

  /** Whenever a vault session is cached, it holds the master key of the registration. */
  lemma SessionsHoldTheMasterKey(ops: seq<Op>)
    requires AllGenerated(ops)
    ensures var (s, l) := Run(ops);
            && SessionMatches(s.live, l) && SessionMatches(s.recoverable, l)
            && (s.live.Some? || s.recoverable.Some? ==> s.user.Some?)
  {
    hide Run, UserMatches;
    RunKeepsMatch(ops);
  }

  lemma RunStep(ops: seq<Op>, op: Op)
    ensures var (s, l) := Run(ops);
            var (s', outcome) := Step(s, op);
            Run(ops + [op]) == (s', Note(l, op, outcome))
  {
    hide Step, Note;
    assert (ops + [op])[..|ops|] == ops;
  }

  /** The failing family is not empty: register, reset without the key, sign in with the new password. */
  lemma ResetWithoutKeyExample(masterKey: seq<Byte>, d: Draws, nonce: seq<Byte>)
    requires Generated(d)
    ensures var ops := [Register("old", true, true, false, masterKey, d),
                        ForgotPassword(0, 3600, false, "t"),
                        CompleteReset(10, "t", "new", NotRequired, "", false, d)];
            && AllGenerated(ops)
            && Run(ops).1.Ledger? && Run(ops).1.password == "new"
            && Step(Run(ops).0, SignIn("new", false, true, nonce)).1 == VaultSessionFailed
  {
    hide Wrap, OpenHex, Open, IsSet, EncryptValue;
    var first := Register("old", true, true, false, masterKey, d);
    var second := ForgotPassword(0, 3600, false, "t");
    var third := CompleteReset(10, "t", "new", NotRequired, "", false, d);
    RunStep([], first);
    RunStep([first], second);
    RunStep([first, second], third);
    assert [] + [first] == [first] && [first] + [second] == [first, second];
    assert [first, second] + [third] == [first, second, third];
    RightPasswordSignsInIff([first, second, third], false, true, nonce);
  }

  // ---------------------------------------------------------------- which resets are done

  function AnswerAt(ops: seq<Op>, i: nat): Outcome
    requires i < |ops|
  {
    Step(Run(ops[..i]).0, ops[i]).1
  }

  /** A request for a reset token that had an effect: of an account with a password that was not locked. */
  predicate TokenSent(ops: seq<Op>, i: nat)
    requires i < |ops|
  {
    ops[i].ForgotPassword? && !ops[i].locked && Run(ops[..i]).1.Ledger?
  }

  predicate ResetAnswered(ops: seq<Op>, i: nat)
    requires i < |ops|
  {
    ops[i].CompleteReset? && AnswerAt(ops, i).ResetDone?
  }

  /** Request `i` is the last that sent a token, and no reset has been done since. */
  ghost predicate Outstanding(ops: seq<Op>, i: nat) {
    && i < |ops| && TokenSent(ops, i)
    && forall j :: i < j < |ops| ==> !TokenSent(ops, j) && !ResetAnswered(ops, j)
  }

  /** The outstanding request, found from the end of the history. */
  function LastTicket(ops: seq<Op>): Option<nat> {
    if ops == [] then None
    else
      var last := |ops| - 1;
      if TokenSent(ops, last) then Some(last)
      else if ResetAnswered(ops, last) then None
      else LastTicket(ops[..last])
  }

  lemma {:induction false} LastTicketIsOutstanding(ops: seq<Op>, i: nat)
    ensures LastTicket(ops) == Some(i) <==> Outstanding(ops, i)
  {
    hide TokenSent, ResetAnswered;
    if ops != [] {
      var init, op := ops[..|ops| - 1], ops[|ops| - 1];
      assert ops == init + [op];
      LastTicketIsOutstanding(init, i);
      OutstandingStep(init, op, i);
    }
  }

  /** The row's reset columns say what the history says. */
  ghost predicate TicketMatches(s: State, ops: seq<Op>, ticket: Option<nat>) {
    match ticket
    case Some(i) =>
      && i < |ops| && ops[i].ForgotPassword? && s.user.Some?
      && s.user.value.resetToken == Some(ops[i].token)
      && s.user.value.resetExpiry == Some(ops[i].now + ops[i].ttl)
    case None => s.user.Some? ==> s.user.value.resetToken == None
  }

  lemma PrefixesAgree(ops: seq<Op>, op: Op, i: nat)
    requires i < |ops|
    ensures TokenSent(ops + [op], i) == TokenSent(ops, i)
    ensures ResetAnswered(ops + [op], i) == ResetAnswered(ops, i)
  {
    hide Run, Step;
    assert (ops + [op])[..i] == ops[..i];
  }

  /** What one more operation does to the outstanding request. */
  lemma OutstandingStep(ops: seq<Op>, op: Op, i: nat)
    ensures var n := |ops|;
            Outstanding(ops + [op], i) <==>
              if i == n then TokenSent(ops + [op], n)
              else Outstanding(ops, i) && !TokenSent(ops + [op], n) && !ResetAnswered(ops + [op], n)
  {
    hide TokenSent, ResetAnswered;
    var more := ops + [op];
    assert more[|ops|] == op;
    forall j | 0 <= j < |ops|
      ensures TokenSent(more, j) == TokenSent(ops, j) && ResetAnswered(more, j) == ResetAnswered(ops, j)
    {
      PrefixesAgree(ops, op, j);
    }
  }

  lemma LastOperation(ops: seq<Op>, op: Op)
    ensures var (s, l) := Run(ops);
            && (TokenSent(ops + [op], |ops|) <==> op.ForgotPassword? && !op.locked && l.Ledger?)
            && (ResetAnswered(ops + [op], |ops|) <==> op.CompleteReset? && Step(s, op).1.ResetDone?)
  {
    hide Run, Step;
    assert (ops + [op])[..|ops|] == ops && (ops + [op])[|ops|] == op;
  }

  /** The reset columns change only as the operation's answer says. */
  lemma TicketStep(s: State, l: Ledger, op: Op)
    requires Matches(s, l) && (s.user.None? ==> l.Blank?)
    ensures var (s', outcome) := Step(s, op);
            if op.ForgotPassword? && !op.locked && l.Ledger? then
              && s'.user.Some? && s'.user.value.resetToken == Some(op.token)
              && s'.user.value.resetExpiry == Some(op.now + op.ttl)
            else if op.CompleteReset? && outcome.ResetDone? then s'.user.Some? && s'.user.value.resetToken == None
            else if s.user.Some? then
              && s'.user.Some? && s'.user.value.resetToken == s.user.value.resetToken
              && s'.user.value.resetExpiry == s.user.value.resetExpiry
            else s'.user.Some? ==> s'.user.value.resetToken == None
  {
    hide OpensOnlyWith, Wrap, OpenHex, OpensRecovery, IsSet, EncryptValue, SessionMatches;
  }

  lemma LastTicketSnoc(ops: seq<Op>, op: Op)
    ensures var (s, l) := Run(ops);
            LastTicket(ops + [op]) == NextTicket(s, l, op, |ops|, LastTicket(ops))
  {
    hide Run, Step, TokenSent, ResetAnswered;
    LastOperation(ops, op);
    assert (ops + [op])[..|ops|] == ops;
  }

  function NextTicket(s: State, l: Ledger, op: Op, n: nat, ticket: Option<nat>): Option<nat> {
    if op.ForgotPassword? && !op.locked && l.Ledger? then Some(n)
    else if op.CompleteReset? && Step(s, op).1.ResetDone? then None
    else ticket
  }

  lemma TicketCarries(s: State, l: Ledger, ops: seq<Op>, op: Op, ticket: Option<nat>)
    requires Matches(s, l) && TicketMatches(s, ops, ticket)
    ensures TicketMatches(Step(s, op).0, ops + [op], NextTicket(s, l, op, |ops|, ticket))
  {
    hide Step, Matches;
    BlankHasNoUser(s, l);
    TicketStep(s, l, op);
    assert (ops + [op])[|ops|] == op;
    assert ticket.Some? && ticket.value < |ops| ==> (ops + [op])[ticket.value] == ops[ticket.value];
  }

  lemma {:induction false} HistoryKeepsTicket(ops: seq<Op>)
    requires AllGenerated(ops)
    ensures TicketMatches(Run(ops).0, ops, LastTicket(ops))
  {
    hide Run, Step, LastTicket, Matches, TicketMatches;
    if ops == [] {
      NoTicketAtFirst();
    } else {
      var init, op := ops[..|ops| - 1], ops[|ops| - 1];
      assert ops == init + [op];
      HistoryKeepsTicket(init);
      RunKeepsMatch(init);
      TicketCarries(Run(init).0, Run(init).1, init, op, LastTicket(init));
      RunStep(init, op);
      LastTicketSnoc(init, op);
    }
  }

  lemma NoTicketAtFirst()
    ensures TicketMatches(Run([]).0, [], LastTicket([]))
  {
  }

  lemma BlankHasNoUser(s: State, l: Ledger)
    requires Matches(s, l)
    ensures s.user.None? <==> l.Blank?
  {
  }

  /** Exactly which resets are done, over every history: those that present the token of the last request that sent
      one, no later than its lifetime allows, with no reset done since, with the SMS check passed where there is
      one, and with a password that is not known to be breached. Every other reset changes nothing. */
  lemma ResetDoneIff(ops: seq<Op>, reset: Op)
    requires AllGenerated(ops) && reset.CompleteReset?
    ensures var s := Run(ops).0;
            var (s', outcome) := Step(s, reset);
            && (outcome.ResetDone? <==>
                 && (exists i: nat :: Outstanding(ops, i) && ops[i].token == reset.token
                                 && reset.now <= ops[i].now + ops[i].ttl)
                 && reset.sms !in {CodeMissing, CodeWrong}
                 && !reset.breached)
            && (!outcome.ResetDone? ==> (s', outcome) == (s, Refused))
  {
    HistoryKeepsTicket(ops);
    hide Run, OpensRecovery, Wrap, Outstanding;
    forall i: nat
      ensures LastTicket(ops) == Some(i) <==> Outstanding(ops, i)
    {
      LastTicketIsOutstanding(ops, i);
    }
    hide LastTicket;
  }

  /** A reset token works once: after a reset is done, no reset is done until another token has been sent. */
  lemma ResetTokensWorkOnce(ops: seq<Op>, reset: Op, more: seq<Op>, again: Op)
    requires AllGenerated(ops + [reset] + more) && reset.CompleteReset? && again.CompleteReset?
    requires Step(Run(ops).0, reset).1.ResetDone?
    requires forall i :: 0 <= i < |more| ==> !more[i].ForgotPassword?
    ensures Step(Run(ops + [reset] + more).0, again).1 == Refused
  {
    hide Run, Step, AllGenerated;
    var all := ops + [reset] + more;
    var n := |ops|;
    assert all[..n] == ops && all[n] == reset;
    assert ResetAnswered(all, n);
    forall i: nat
      ensures !Outstanding(all, i)
    {
      if n < i < |all| {
        assert all[i] == more[i - n - 1];
        assert !TokenSent(all, i);
      }
    }
    ResetDoneIff(all, again);
  }

  /** What a password sign-in of a present account answers to a password that is not the present one. */
  lemma WrongPasswordIsRefused(ops: seq<Op>, password: string, webAuthn: bool, caching: bool, nonce: seq<Byte>)
    requires AllGenerated(ops)
    requires Run(ops).1.Ledger? ==> password != Run(ops).1.password
    ensures Step(Run(ops).0, SignIn(password, webAuthn, caching, nonce)) == (Run(ops).0, Refused)
  {
    hide Run, OpensOnlyWith;
    RunKeepsMatch(ops);
  }

  /** What a registration answers: refused without a password, with a malformed address, while sign-up is off or
      with a breached password; a silent success without a recovery key where the account exists; otherwise a new
      account with the drawn recovery key. Only the last changes anything. */
  lemma RegistrationAnswers(s: State, op: Op)
    requires op.Register?
    ensures var (s', outcome) := Step(s, op);
            var wellFormed := op.password != "" && op.addressOk && op.signupEnabled;
            && (outcome == Refused <==> !wellFormed || (s.user.None? && op.breached))
            && (wellFormed && s.user.Some? ==> outcome == Registered(""))
            && (s' != s ==> wellFormed && s.user.None? && !op.breached)
            && (wellFormed && s.user.None? && !op.breached ==>
                 && s'.user.Some? && outcome == Registered(op.draws.recoveryKey)
                 && s'.user.value.password == Some(op.password) && !s'.user.value.vaultNeedsRecovery
                 && s'.user.value.resetToken == None && s'.user.value.resetExpiry == None
                 && s'.live == s.live && s'.recoverable == s.recoverable)
  {
  }

  /** An account that signs in elsewhere starts without a password, a vault and a reset token; an account that exists
      is left alone. */
  lemma ProvisioningAnswers(s: State)
    ensures var (s', outcome) := Step(s, Provision);
            && (s.user.Some? ==> (s', outcome) == (s, Refused))
            && (s.user.None? ==>
                 && outcome == Provisioned && s'.user.Some? && s'.user.value.password == None
                 && !IsSet(s'.user.value.vault) && !IsSet(s'.user.value.recovery)
                 && !s'.user.value.vaultNeedsRecovery && s'.user.value.resetToken == None)
  {
  }

  /** A request for a reset token is answered alike whether the account exists, is locked or has a password, and
      changes at most the reset columns. */
  lemma ForgotPasswordTellsNothing(s: State, op: Op)
    requires op.ForgotPassword?
    ensures var (s', outcome) := Step(s, op);
            && outcome == ResetSent
            && s'.live == s.live && s'.recoverable == s.recoverable && (s'.user.Some? <==> s.user.Some?)
            && (s.user.Some? ==>
                 s'.user.value.(resetToken := None, resetExpiry := None)
                 == s.user.value.(resetToken := None, resetExpiry := None))
  {
  }

  /** What a sign-in stores: both entries of the master key exactly if it opened the vault; else what was there. */
  lemma SignInStores(ops: seq<Op>, webAuthn: bool, caching: bool, nonce: seq<Byte>)
    requires AllGenerated(ops) && Run(ops).1.Ledger?
    ensures var (s, l) := Run(ops);
            var s' := Step(s, SignIn(l.password, webAuthn, caching, nonce)).0;
            var stored := Some(EncryptValue(ServerKey, HexEncode(l.masterKey), nonce));
            s' == if !webAuthn && caching && l.password == l.wrappedUnder then State(s.user, stored, stored) else s
  {
    hide Run, OpenHex, IsSet, EncryptValue, HexEncode;
    RunKeepsMatch(ops);
    VaultOpensIff(Run(ops).0, Run(ops).1, Run(ops).1.password);
  }
}
