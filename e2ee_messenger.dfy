/**
 * e2ee_messenger.py: the account registry `E2EELoginSystem` (users.json as a
 * map from email to record) and `E2EEMessenger`, which derives a per-user
 * Fernet key from the password, frames encrypted messages for the Graph API
 * and extracts the ciphertext from a pasted frame.
 *
 * Files are fields (`users`, `keyFiles`, `saltFiles`) or inputs; clocks and
 * random bytes are inputs; Graph API requests are recorded in `calls` and
 * lines of logs/activity.log in `log`.
 */
module E2EEApp {
  import opened Basics
  import opened Text
  import Crypto
  import Rotation

  // ---------------------------------------------------------------- accounts

  /** A record of data/users.json. */
  datatype UserRecord = UserRecord(passwordHash: string, registeredAt: string, lastLogin: Option<string>)

  type Users = map<string, UserRecord>

  /** `register_user` on the stored users: the new users, the verdict and its message. */
  function Register(users: Users, email: string, passwordHash: string, now: string): (r: (Users, bool, string))
    ensures email in users ==> r == (users, false, "User already exists")
    ensures email !in users ==> r.1 && r.2 == "Registration successful"
  {
    if email in users then (users, false, "User already exists")
    else (users[email := UserRecord(passwordHash, now, None)], true, "Registration successful")
  }

  /** `login_user` on the stored users. */
  function Login(users: Users, email: string, passwordHash: string, now: string): (r: (Users, bool, string))
    ensures email !in users ==> r == (users, false, "User not found")
    ensures email in users && users[email].passwordHash != passwordHash ==> r == (users, false, "Invalid password")
    ensures r.1 <==> email in users && users[email].passwordHash == passwordHash
  {
    if email !in users then (users, false, "User not found")
    else if users[email].passwordHash != passwordHash then (users, false, "Invalid password")
    else (users[email := users[email].(lastLogin := Some(now))], true, "Login successful")
  }

  /** A registration adds exactly the new account, with the password's hash
      and no login yet, and leaves every other account as it was. */
  lemma RegisterAddsOne(users: Users, email: string, passwordHash: string, now: string)
    requires email !in users
    ensures var u := Register(users, email, passwordHash, now).0;
      && u.Keys == users.Keys + {email}
      && u[email] == UserRecord(passwordHash, now, None)
      && forall e :: e in users ==> u[e] == users[e]
  {
  }

  /** A successful login changes only that account's last login time. */
  lemma LoginTouchesOnlyLastLogin(users: Users, email: string, passwordHash: string, now: string)
    requires Login(users, email, passwordHash, now).1
    ensures var u := Login(users, email, passwordHash, now).0;
      && u.Keys == users.Keys
      && u[email].passwordHash == users[email].passwordHash
      && u[email].registeredAt == users[email].registeredAt
      && u[email].lastLogin == Some(now)
      && forall e :: e in users && e != email ==> u[e] == users[e]
  {
  }

  /** Registering and then logging in with the same password succeeds, since
      the password hash is a function of the password. */
  lemma RegisterThenLogin(users: Users, email: string, password: string, hash: string -> string,
                          t1: string, t2: string)
    requires email !in users
    ensures Login(Register(users, email, hash(password), t1).0, email, hash(password), t2) ==
            (Register(users, email, hash(password), t1).0[email := UserRecord(hash(password), t1, Some(t2))],
             true, "Login successful")
  {
  }

  /** `E2EELoginSystem`: `users` is the content of data/users.json, which
      every operation loads and saves. */
  class E2EELoginSystem {
    var users: Users
    /** `hash_password`: the SHA-256 hex digest of the password. */
    const hashPassword: string -> string

    constructor (stored: Users, hashPassword: string -> string)
      ensures users == stored && this.hashPassword == hashPassword
    {
      users := stored;
      this.hashPassword := hashPassword;
    }

    method RegisterUser(email: string, password: string, now: string) returns (ok: bool, message: string)
      modifies this`users
      ensures (users, ok, message) == Register(old(users), email, hashPassword(password), now)
    {
      if email in users {
        return false, "User already exists";
      }
      users := users[email := UserRecord(hashPassword(password), now, None)];
      return true, "Registration successful";
    }

    method LoginUser(email: string, password: string, now: string) returns (ok: bool, message: string)
      modifies this`users
      ensures (users, ok, message) == Login(old(users), email, hashPassword(password), now)
    {
      if email !in users {
        return false, "User not found";
      }
      var userData := users[email];
      if userData.passwordHash != hashPassword(password) {
        return false, "Invalid password";
      }
      users := users[email := userData.(lastLogin := Some(now))];
      return true, "Login successful";
    }
  }

  // ---------------------------------------------------------- key derivation

  /** `setup_user_encryption` on the key store: keys/<email>.key and
      keys/<email>.salt are `keyFiles` and `saltFiles`. The results are the
      new stores, the key now in use (`None`: unchanged) and the verdict. */
  function SetupEncryption(kdf: Crypto.Kdf, keyFiles: map<string, Crypto.Key>, saltFiles: map<string, Crypto.Bytes>,
                           email: string, password: string, randomSalt: Crypto.Bytes)
    : (r: (map<string, Crypto.Key>, map<string, Crypto.Bytes>, Option<Crypto.Key>, bool, string))
    requires |randomSalt| == Crypto.SaltLength
    ensures email in keyFiles && email in saltFiles ==>
      && r.0 == keyFiles && r.1 == saltFiles
      && (r.3 <==> kdf(password, saltFiles[email]) == keyFiles[email])
      && (r.3 ==> r.2 == Some(keyFiles[email]) && r.4 == "Encryption setup successful")
      && (!r.3 ==> r.2.None? && r.4 == "Invalid password for decryption")
    ensures !(email in keyFiles && email in saltFiles) ==>
      && r.3 && r.4 == "New encryption key created"
      && r.0 == keyFiles[email := kdf(password, randomSalt)]
      && r.1 == saltFiles[email := randomSalt]
      && r.2 == Some(kdf(password, randomSalt))
  {
    if email in keyFiles && email in saltFiles then
      var (key, _) := Crypto.GenerateEncryptionKey(kdf, password, Some(saltFiles[email]), randomSalt);
      if key != keyFiles[email] then (keyFiles, saltFiles, None, false, "Invalid password for decryption")
      else (keyFiles, saltFiles, Some(key), true, "Encryption setup successful")
    else
      var (key, salt) := Crypto.GenerateEncryptionKey(kdf, password, None, randomSalt);
      (keyFiles[email := key], saltFiles[email := salt], Some(key), true, "New encryption key created")
  }

  /** After a first setup, a later setup with the same password finds the
      stored key and succeeds with it, leaving the store as it is. */
  lemma SetupTwiceSucceeds(kdf: Crypto.Kdf, keyFiles: map<string, Crypto.Key>, saltFiles: map<string, Crypto.Bytes>,
                           email: string, password: string, salt1: Crypto.Bytes, salt2: Crypto.Bytes)
    requires |salt1| == Crypto.SaltLength && |salt2| == Crypto.SaltLength
    ensures var first := SetupEncryption(kdf, keyFiles, saltFiles, email, password, salt1);
      var second := SetupEncryption(kdf, first.0, first.1, email, password, salt2);
      first.3 ==> second == (first.0, first.1, first.2, true, "Encryption setup successful")
  {
  }

  // ------------------------------------------------------------------ frames

  const EncryptedMarker := "E2EE ENCRYPTED MESSAGE"
  const Lock := "\U{1F510}"
  const Bulb := "\U{1F4A1}"
  const Clock := "\U{23F0}"
  const FrameHeader := Lock + " " + EncryptedMarker
  const FrameTip := "\U{1F4A1} Decrypt using your E2EE key"

  /** The lines of the text posted for one message (e2ee_messenger.py:214):
      the header, the ciphertext, a blank line, the tip and the clock. */
  function FrameParts(ciphertext: string, clock: string): seq<string> {
    [FrameHeader, ciphertext, "", FrameTip, Clock + " " + clock]
  }

  /** The text posted for one message: its lines joined by newlines. */
  function FrameText(ciphertext: string, clock: string): string {
    Join(FrameParts(ciphertext, clock), '\n')
  }

  /** A line the extraction takes for the ciphertext: not blank and free of
      every marker. */
  predicate IsPayloadLine(line: string) {
    Strip(line) != "" && !Contains(line, EncryptedMarker) && !Contains(line, Lock)
    && !Contains(line, Bulb) && !Contains(line, Clock)
  }

  /** The first payload line at or after `k`. */
  function FirstPayloadFrom(lines: seq<string>, k: nat): (r: Option<nat>)
    ensures r.Some? ==> k <= r.value < |lines| && IsPayloadLine(lines[r.value])
                        && forall j :: k <= j < r.value ==> !IsPayloadLine(lines[j])
    ensures r.None? ==> forall j :: k <= j < |lines| ==> !IsPayloadLine(lines[j])
    decreases |lines| - k
  {
    if k >= |lines| then None
    else if IsPayloadLine(lines[k]) then Some(k)
    else FirstPayloadFrom(lines, k + 1)
  }

  /** The text `decrypt_received_message` hands to `decrypt_message`: for
      input mentioning the marker, the stripped first payload line; otherwise,
      or when there is none, the whole input. */
  function ExtractCiphertext(msg: string): (r: string)
    ensures !Contains(msg, EncryptedMarker) ==> r == msg
    ensures Contains(msg, EncryptedMarker) && FirstPayloadFrom(Split(msg, '\n'), 0).None? ==> r == msg
    ensures Contains(msg, EncryptedMarker) && FirstPayloadFrom(Split(msg, '\n'), 0).Some? ==>
              exists i :: 0 <= i < |Split(msg, '\n')| && IsPayloadLine(Split(msg, '\n')[i])
                          && r == Strip(Split(msg, '\n')[i])
                          && forall j :: 0 <= j < i ==> !IsPayloadLine(Split(msg, '\n')[j])
  {
    if Contains(msg, EncryptedMarker) then
      var lines := Split(msg, '\n');
      match FirstPayloadFrom(lines, 0)
      case Some(i) => Strip(lines[i])
      case None => msg
    else msg
  }

  /** What `input()` returns from the text typed at the terminal: its first
      line. */
  function InputLine(typed: string): (r: string)
    ensures '\n' !in r
  {
    Split(typed, '\n')[0]
  }

  /** `decrypt_received_message` on the text it was given. */
  function ReceivedResult(pasted: string, fernet: Option<Crypto.Key>, cipher: Crypto.Cipher): (r: (bool, string))
    ensures Strip(pasted) == "" ==> r == (false, "No message provided")
    ensures Strip(pasted) != "" ==> r.0
  {
    var msg := Strip(pasted);
    if msg == "" then (false, "No message provided")
    else (true, Crypto.DecryptMessage(fernet, ExtractCiphertext(msg), cipher))
  }

  /** What a ciphertext must be for the extraction to find it again: one
      stripped line without any marker. */
  predicate IsExtractable(c: string) {
    IsPayloadLine(c) && Strip(c) == c && '\n' !in c
  }

  /** A clock text that keeps the frame stripped and one line long. */
  predicate IsClockText(clock: string) {
    clock != "" && '\n' !in clock && !IsPySpace(clock[|clock| - 1])
  }

  /** None of the fixed lines of a frame holds a newline. */
  lemma FixedLinesOneLine()
    ensures '\n' !in FrameHeader && '\n' !in FrameTip && '\n' !in Clock
  {
    assert forall i :: 0 <= i < |EncryptedMarker| ==> EncryptedMarker[i] != '\n';
    assert forall i :: 0 <= i < |FrameHeader| ==> FrameHeader[i] != '\n';
    assert forall i :: 0 <= i < |FrameTip| ==> FrameTip[i] != '\n';
  }

  lemma FrameLines(c: string, clock: string)
    requires '\n' !in c && '\n' !in clock
    ensures Split(FrameText(c, clock), '\n') == FrameParts(c, clock)
  {
    var parts := FrameParts(c, clock);
    FixedLinesOneLine();
    assert forall i :: 0 <= i < |parts| ==> '\n' !in parts[i];
    SplitJoin(parts, '\n');
  }

  /** The header line is no payload line: it carries the marker. */
  lemma HeaderIsNoPayload()
    ensures !IsPayloadLine(FrameHeader)
  {
    ContainsInside(Lock + " ", EncryptedMarker, "");
    assert Lock + " " + EncryptedMarker + "" == FrameHeader;
  }

  /** Extracting from a frame gives back exactly the ciphertext it carries. */
  lemma FrameExtractRoundTrip(c: string, clock: string)
    requires IsExtractable(c) && IsClockText(clock)
    ensures Strip(FrameText(c, clock)) == FrameText(c, clock)
    ensures ExtractCiphertext(FrameText(c, clock)) == c
  {
    var f := FrameText(c, clock);
    var parts := FrameParts(c, clock);
    JoinEnds(parts, '\n');
    assert f[0] == '\U{1F510}';
    FrameLines(c, clock);
    HeaderIsNoPayload();
    var rest := "\n" + Join(parts[1..], '\n');
    assert f == FrameHeader + rest;
    ContainsInside(Lock + " ", EncryptedMarker, rest);
    assert FirstPayloadFrom(parts, 0) == Some(1);
  }

  /** Non-empty url-safe base64 text is always extractable. */
  lemma Base64Extractable(c: string)
    requires Crypto.IsBase64Text(c)
    ensures IsExtractable(c)
  {
    assert EncryptedMarker[4] == ' ' && !Crypto.IsBase64UrlChar(' ');
    NotContainsForeign(c, EncryptedMarker, 4, Crypto.IsBase64UrlChar);
    NotContainsForeign(c, Lock, 0, Crypto.IsBase64UrlChar);
    NotContainsForeign(c, Bulb, 0, Crypto.IsBase64UrlChar);
    NotContainsForeign(c, Clock, 0, Crypto.IsBase64UrlChar);
    assert !Crypto.IsBase64UrlChar('\n');
    assert !IsPySpace(c[0]) && !IsPySpace(c[|c| - 1]);
  }

  /** Pasting the whole frame at the prompt hands `decrypt_received_message`
      only its header line, which holds the marker and no payload line, so
      the header itself goes to `decrypt_message`; and the header is not
      base64 text, so it is no token the cipher produces. */
  lemma PastedFrameDecryptsHeader(c: string, clock: string, fernet: Option<Crypto.Key>, cipher: Crypto.Cipher)
    requires '\n' !in c && '\n' !in clock
    ensures InputLine(FrameText(c, clock)) == FrameHeader
    ensures ReceivedResult(InputLine(FrameText(c, clock)), fernet, cipher)
            == (true, Crypto.DecryptMessage(fernet, FrameHeader, cipher))
    ensures !Crypto.IsBase64Text(FrameHeader)
  {
    FrameLines(c, clock);
    FixedLinesOneLine();
    assert FrameHeader[0] == '\U{1F510}' && FrameHeader[|FrameHeader| - 1] == 'E';
    assert Strip(FrameHeader) == FrameHeader;
    SplitSingle(FrameHeader, '\n');
    HeaderIsNoPayload();
    ContainsInside(Lock + " ", EncryptedMarker, "");
    assert Lock + " " + EncryptedMarker + "" == FrameHeader;
    assert !Crypto.IsBase64UrlChar(FrameHeader[0]);
  }

  /** Whatever is typed, what `decrypt_received_message` reads is one line,
      so the scan for a payload line never applies: the text read is
      decrypted as it is. */
  lemma InputSkipsScan(typed: string)
    ensures ExtractCiphertext(Strip(InputLine(typed))) == Strip(InputLine(typed))
  {
    var m := Strip(InputLine(typed));
    StripAvoids(InputLine(typed), '\n');
    SplitSingle(m, '\n');
  }

  /** Pasting just the ciphertext line, whatever is typed after it, gives the
      plaintext back. */
  lemma CiphertextLineRoundTrip(key: Crypto.Key, message: string, cipher: Crypto.Cipher, nonce: Crypto.Bytes, rest: string)
    requires Crypto.Sound(cipher)
    ensures ReceivedResult(InputLine(Crypto.EncryptMessage(Some(key), message, cipher, nonce) + "\n" + rest), Some(key), cipher)
            == (true, message)
  {
    var c := Crypto.EncryptMessage(Some(key), message, cipher, nonce);
    Crypto.EncryptDecryptRoundTrip(Some(key), message, cipher, nonce);
    Base64Extractable(c);
    SplitCons(c, rest, '\n');
    assert c + "\n" + rest == c + ['\n'] + rest;
  }

  /** Sending and receiving compose once the whole pasted frame is read:
      extracting from the frame of an encrypted message gives the plaintext
      back. */
  lemma SendReceiveRoundTrip(key: Crypto.Key, message: string, cipher: Crypto.Cipher, nonce: Crypto.Bytes, clock: string)
    requires Crypto.Sound(cipher) && IsClockText(clock)
    ensures ReceivedResult(FrameText(Crypto.EncryptMessage(Some(key), message, cipher, nonce), clock), Some(key), cipher)
            == (true, message)
  {
    var c := Crypto.EncryptMessage(Some(key), message, cipher, nonce);
    Crypto.EncryptDecryptRoundTrip(Some(key), message, cipher, nonce);
    Base64Extractable(c);
    FrameExtractRoundTrip(c, clock);
  }

  // --------------------------------------------------------------- messenger

  const TestMessagePrefix := "\U{1F9EA} Test message from E2EE Messenger - "

  /** A message body the messenger posts: the frame of a ciphertext. */
  datatype Outgoing = FrameOf(ciphertext: string, clock: string)

  function WireText(o: Outgoing): string {
    FrameText(o.ciphertext, o.clock)
  }

  datatype ApiCall = TokenCheck(token: string) | Post(recipient: string, token: string, body: Outgoing)

  /** A line of logs/activity.log (the timestamp is left out). */
  datatype Activity = Activity(kind: string, details: string)

  /** What the Graph API answered to a token check. */
  datatype TokenReply = TokenOk(name: Option<string>) | TokenRejected(apiError: Option<string>) | TokenError(detail: string)

  datatype Delivery = Delivered | Rejected(apiError: Option<string>) | NetworkError(detail: string)

  datatype Attempt = Attempt(clock: string, nonce: Crypto.Bytes, outcome: Delivery)

  function ErrorText(e: Option<string>): string {
    if e.Some? then e.value else "Unknown error"
  }

  function PyStr(o: Option<string>): string {
    if o.Some? then o.value else "None"
  }

  /** The first `n` characters of `s`, all of it when shorter. */
  function Prefix(s: string, n: nat): (r: string)
    ensures |r| == (if |s| < n then |s| else n) && StartsWith(s, r)
  {
    if |s| < n then s else s[..n]
  }

  /** Which attempts send successfully: none unless token and target are
      configured, since the send refuses before any request. */
  function Outcomes(configured: bool, attempts: seq<Attempt>): (r: seq<bool>)
    ensures |r| == |attempts|
    ensures !configured ==> forall i :: 0 <= i < |r| ==> !r[i]
  {
    seq(|attempts|, i requires 0 <= i < |attempts| => configured && attempts[i].outcome.Delivered?)
  }

  /** The POST that sends `message` for attempt `a`, encrypted under `fernet`. */
  function PostFor(fernet: Option<Crypto.Key>, cipher: Crypto.Cipher, tok: string, target: string,
                   message: string, a: Attempt): ApiCall {
    Post(target, tok, FrameOf(Crypto.EncryptMessage(fernet, message, cipher, a.nonce), a.clock))
  }

  /** The POSTs a run of attempts makes, `tried[j]` being the message index of attempt `j`. */
  function PostsFor(fernet: Option<Crypto.Key>, cipher: Crypto.Cipher, tok: string, target: string,
                    messages: seq<string>, tried: seq<nat>, attempts: seq<Attempt>): (r: seq<ApiCall>)
    requires |tried| == |attempts|
    requires forall j :: 0 <= j < |tried| ==> tried[j] < |messages|
    ensures |r| == |attempts|
  {
    seq(|attempts|, j requires 0 <= j < |attempts| => PostFor(fernet, cipher, tok, target, messages[tried[j]], attempts[j]))
  }

  lemma PostsForSnoc(fernet: Option<Crypto.Key>, cipher: Crypto.Cipher, tok: string, target: string,
                     messages: seq<string>, tried: seq<nat>, attempts: seq<Attempt>, c: nat, i: nat)
    requires |tried| == i < |attempts| && c < |messages|
    requires forall j :: 0 <= j < |tried| ==> tried[j] < |messages|
    ensures PostsFor(fernet, cipher, tok, target, messages, tried + [c], attempts[..i + 1]) ==
            PostsFor(fernet, cipher, tok, target, messages, tried, attempts[..i])
            + [PostFor(fernet, cipher, tok, target, messages[c], attempts[i])]
  {
    var l := PostsFor(fernet, cipher, tok, target, messages, tried + [c], attempts[..i + 1]);
    var r := PostsFor(fernet, cipher, tok, target, messages, tried, attempts[..i])
             + [PostFor(fernet, cipher, tok, target, messages[c], attempts[i])];
    forall j | 0 <= j < |l| ensures l[j] == r[j] {
      if j < i {
        assert (tried + [c])[j] == tried[j] && attempts[..i + 1][j] == attempts[..i][j];
      }
    }
  }

  /** The activity line `send_encrypted_message` writes for `message` sent to
      `target` in attempt `a`. */
  function ActivityFor(fernet: Option<Crypto.Key>, cipher: Crypto.Cipher, target: string,
                       message: string, a: Attempt): Activity {
    match a.outcome
    case Delivered =>
      Activity("MESSAGE_SENT", "To: " + target + " | Encrypted: "
                               + Prefix(Crypto.EncryptMessage(fernet, message, cipher, a.nonce), 30) + "...")
    case Rejected(e) => Activity("MESSAGE_FAILED", ErrorText(e))
    case NetworkError(x) => Activity("NETWORK_ERROR", x)
  }

  /** The activity lines a run of attempts writes, `tried[j]` being the message index of attempt `j`. */
  function ActivitiesFor(fernet: Option<Crypto.Key>, cipher: Crypto.Cipher, target: string,
                         messages: seq<string>, tried: seq<nat>, attempts: seq<Attempt>): (r: seq<Activity>)
    requires |tried| == |attempts|
    requires forall j :: 0 <= j < |tried| ==> tried[j] < |messages|
    ensures |r| == |attempts|
  {
    seq(|attempts|, j requires 0 <= j < |attempts| => ActivityFor(fernet, cipher, target, messages[tried[j]], attempts[j]))
  }

  lemma ActivitiesForSnoc(fernet: Option<Crypto.Key>, cipher: Crypto.Cipher, target: string,
                          messages: seq<string>, tried: seq<nat>, attempts: seq<Attempt>, c: nat, i: nat)
    requires |tried| == i < |attempts| && c < |messages|
    requires forall j :: 0 <= j < |tried| ==> tried[j] < |messages|
    ensures ActivitiesFor(fernet, cipher, target, messages, tried + [c], attempts[..i + 1]) ==
            ActivitiesFor(fernet, cipher, target, messages, tried, attempts[..i])
            + [ActivityFor(fernet, cipher, target, messages[c], attempts[i])]
  {
    var l := ActivitiesFor(fernet, cipher, target, messages, tried + [c], attempts[..i + 1]);
    var r := ActivitiesFor(fernet, cipher, target, messages, tried, attempts[..i])
             + [ActivityFor(fernet, cipher, target, messages[c], attempts[i])];
    forall j | 0 <= j < |l| ensures l[j] == r[j] {
      if j < i {
        assert (tried + [c])[j] == tried[j] && attempts[..i + 1][j] == attempts[..i][j];
      }
    }
  }

  /** What one send adds to the request record and the activity log
      extends the run's POSTs and activity lines by that attempt's. */
  lemma RunStepRecords(fernet: Option<Crypto.Key>, cipher: Crypto.Cipher, tok: string, target: string,
                       messages: seq<string>, tried: seq<nat>, attempts: seq<Attempt>, c: nat, i: nat,
                       calls0: seq<ApiCall>, callsBefore: seq<ApiCall>, callsAfter: seq<ApiCall>,
                       log0: seq<Activity>, logBefore: seq<Activity>, logAfter: seq<Activity>)
    requires |tried| == i < |attempts| && c < |messages|
    requires forall j :: 0 <= j < |tried| ==> tried[j] < |messages|
    requires callsBefore == calls0 + PostsFor(fernet, cipher, tok, target, messages, tried, attempts[..i])
    requires callsAfter == callsBefore + [PostFor(fernet, cipher, tok, target, messages[c], attempts[i])]
    requires logBefore == log0 + ActivitiesFor(fernet, cipher, target, messages, tried, attempts[..i])
    requires logAfter == logBefore + [ActivityFor(fernet, cipher, target, messages[c], attempts[i])]
    ensures callsAfter == calls0 + PostsFor(fernet, cipher, tok, target, messages, tried + [c], attempts[..i + 1])
    ensures logAfter == log0 + ActivitiesFor(fernet, cipher, target, messages, tried + [c], attempts[..i + 1])
  {
    PostsForSnoc(fernet, cipher, tok, target, messages, tried, attempts, c, i);
    ActivitiesForSnoc(fernet, cipher, target, messages, tried, attempts, c, i);
  }

  class E2EEMessenger {
    const kdf: Crypto.Kdf
    const cipher: Crypto.Cipher

    var token: Option<string>
    var targetUser: Option<string>
    var messages: seq<string>
    var fernet: Option<Crypto.Key>
    var keyFiles: map<string, Crypto.Key>
    var saltFiles: map<string, Crypto.Bytes>
    var calls: seq<ApiCall>
    var log: seq<Activity>

    /** `__init__`: nothing configured, no key in use; the key store is what
        keys/ already holds. */
    constructor (kdf: Crypto.Kdf, cipher: Crypto.Cipher,
                 keyFiles: map<string, Crypto.Key>, saltFiles: map<string, Crypto.Bytes>)
      ensures this.kdf == kdf && this.cipher == cipher
      ensures this.keyFiles == keyFiles && this.saltFiles == saltFiles
      ensures token.None? && targetUser.None? && messages == [] && fernet.None?
      ensures calls == [] && log == []
    {
      this.kdf := kdf;
      this.cipher := cipher;
      this.keyFiles := keyFiles;
      this.saltFiles := saltFiles;
      token, targetUser, messages, fernet := None, None, [], None;
      calls, log := [], [];
    }

    /** `setup_user_encryption`; `randomSalt` is what `os.urandom(16)` returns. */
    method SetupUserEncryption(email: string, password: string, randomSalt: Crypto.Bytes)
      returns (ok: bool, message: string)
      requires |randomSalt| == Crypto.SaltLength
      modifies this`fernet, this`keyFiles, this`saltFiles
      ensures var r := SetupEncryption(kdf, old(keyFiles), old(saltFiles), email, password, randomSalt);
        && keyFiles == r.0 && saltFiles == r.1 && ok == r.3 && message == r.4
        && fernet == (if r.2.Some? then r.2 else old(fernet))
    {
      if email in keyFiles && email in saltFiles {
        var salt := saltFiles[email];
        var (key, _) := Crypto.GenerateEncryptionKey(kdf, password, Some(salt), randomSalt);
        var storedKey := keyFiles[email];
        if key != storedKey {
          return false, "Invalid password for decryption";
        }
        fernet := Some(key);
        return true, "Encryption setup successful";
      } else {
        var (key, salt) := Crypto.GenerateEncryptionKey(kdf, password, None, randomSalt);
        keyFiles := keyFiles[email := key];
        saltFiles := saltFiles[email := salt];
        fernet := Some(key);
        return true, "New encryption key created";
      }
    }

    /** `load_facebook_config`: the three files are read in order in text
        mode, and a missing one stops the loading, keeping what was already
        assigned. */
    method LoadFacebookConfig(tokenFile: Option<string>, userIdFile: Option<string>, messageFile: Option<string>)
      returns (ok: bool)
      modifies this`token, this`targetUser, this`messages
      ensures tokenFile.None? ==> !ok && token == old(token) && targetUser == old(targetUser) && messages == old(messages)
      ensures tokenFile.Some? && userIdFile.None? ==>
        !ok && token == Some(ReadStripped(tokenFile.value)) && targetUser == old(targetUser) && messages == old(messages)
      ensures tokenFile.Some? && userIdFile.Some? && messageFile.None? ==>
        && !ok && token == Some(ReadStripped(tokenFile.value)) && targetUser == Some(ReadStripped(userIdFile.value))
        && messages == old(messages)
      ensures tokenFile.Some? && userIdFile.Some? && messageFile.Some? ==>
        && ok && token == Some(ReadStripped(tokenFile.value)) && targetUser == Some(ReadStripped(userIdFile.value))
        && messages == NonBlankLines(messageFile.value)
    {
      ok := false;
      if tokenFile.Some? {
        token := Some(ReadStripped(tokenFile.value));
        if userIdFile.Some? {
          targetUser := Some(ReadStripped(userIdFile.value));
          if messageFile.Some? {
            messages := NonBlankLines(messageFile.value);
            ok := true;
          }
        }
      }
    }

    /** `verify_facebook_token`: no request without a token. */
    method VerifyFacebookToken(reply: TokenReply) returns (ok: bool, message: string)
      modifies this`calls
      ensures !Present(token) ==> !ok && message == "Token not loaded" && calls == old(calls)
      ensures Present(token) ==>
        && calls == old(calls) + [TokenCheck(token.value)]
        && ok == reply.TokenOk?
        && message == match reply
             case TokenOk(name) => "Token valid - " + PyStr(name)
             case TokenRejected(e) => ErrorText(e)
             case TokenError(x) => "Verification failed: " + x
    {
      if !Present(token) {
        return false, "Token not loaded";
      }
      calls := calls + [TokenCheck(token.value)];
      match reply {
        case TokenOk(name) => ok, message := true, "Token valid - " + PyStr(name);
        case TokenRejected(e) => ok, message := false, ErrorText(e);
        case TokenError(x) => ok, message := false, "Verification failed: " + x;
      }
    }

    /** `send_encrypted_message`: nothing is sent without a token and a
        target; otherwise one POST carries the frame and one activity line
        records the outcome. */
    method SendEncryptedMessage(message: string, a: Attempt) returns (ok: bool, result: string)
      modifies this`calls, this`log
      ensures !Present(token) || !Present(targetUser) ==>
                !ok && result == "Configuration missing" && calls == old(calls) && log == old(log)
      ensures Present(token) && Present(targetUser) ==>
        var enc := Crypto.EncryptMessage(fernet, message, cipher, a.nonce);
        && ok == a.outcome.Delivered?
        && calls == old(calls) + [PostFor(fernet, cipher, token.value, targetUser.value, message, a)]
        && match a.outcome
           case Delivered =>
             result == "Message sent successfully"
             && log == old(log) + [Activity("MESSAGE_SENT", "To: " + targetUser.value + " | Encrypted: " + Prefix(enc, 30) + "...")]
           case Rejected(e) =>
             result == ErrorText(e) && log == old(log) + [Activity("MESSAGE_FAILED", ErrorText(e))]
           case NetworkError(x) =>
             result == "Network error: " + x && log == old(log) + [Activity("NETWORK_ERROR", x)]
    {
      if !Present(token) || !Present(targetUser) {
        return false, "Configuration missing";
      }
      var enc := Crypto.EncryptMessage(fernet, message, cipher, a.nonce);
      calls := calls + [Post(targetUser.value, token.value, FrameOf(enc, a.clock))];
      match a.outcome {
        case Delivered =>
          log := log + [Activity("MESSAGE_SENT", "To: " + targetUser.value + " | Encrypted: " + Prefix(enc, 30) + "...")];
          ok, result := true, "Message sent successfully";
        case Rejected(e) =>
          log := log + [Activity("MESSAGE_FAILED", ErrorText(e))];
          ok, result := false, ErrorText(e);
        case NetworkError(x) =>
          log := log + [Activity("NETWORK_ERROR", x)];
          ok, result := false, "Network error: " + x;
      }
    }

    /** `send_test_message`: the test text ends in `testClock`, the time read
        before the send, which reads the clock again for the frame. */
    method SendTestMessage(testClock: string, a: Attempt) returns (ok: bool, result: string)
      modifies this`calls, this`log
      ensures ok <==> Present(token) && Present(targetUser) && a.outcome.Delivered?
      ensures !(Present(token) && Present(targetUser)) ==>
                result == "Configuration missing" && calls == old(calls) && log == old(log)
      ensures Present(token) && Present(targetUser) ==>
                var m := TestMessagePrefix + testClock;
                && calls == old(calls) + [PostFor(fernet, cipher, token.value, targetUser.value, m, a)]
                && log == old(log) + [ActivityFor(fernet, cipher, targetUser.value, m, a)]
                && match a.outcome
                   case Delivered => result == "Message sent successfully"
                   case Rejected(e) => result == ErrorText(e)
                   case NetworkError(x) => result == "Network error: " + x
    {
      ok, result := SendEncryptedMessage(TestMessagePrefix + testClock, a);
    }

    /** `start_auto_messaging`: refuses without messages; otherwise sends the
        message under a local cursor that starts at 0 and moves to
        `(index + 1) % len(messages)` only after a successful send, over the
        given attempts (the run is interrupted after the last one). */
    method StartAutoMessaging(attempts: seq<Attempt>)
      returns (ok: bool, result: string, messageCount: nat, ghost tried: seq<nat>)
      modifies this`calls, this`log
      ensures messages == [] ==> !ok && result == "No messages loaded" && calls == old(calls) && log == old(log)
      ensures messages != [] ==>
        && ok && result == "Auto-messaging stopped. Total sent: " + NatToString(messageCount)
        && messageCount == Rotation.Successes(Outcomes(Configured(), attempts))
        && tried == Rotation.Schedule(|messages|, 0, Outcomes(Configured(), attempts))
      ensures messages != [] && Present(token) && Present(targetUser) ==>
        calls == old(calls) + PostsFor(fernet, cipher, token.value, targetUser.value, messages, tried, attempts)
      ensures messages != [] && Present(token) && Present(targetUser) ==>
        log == old(log) + ActivitiesFor(fernet, cipher, targetUser.value, messages, tried, attempts)
      ensures !(Present(token) && Present(targetUser)) ==> calls == old(calls) && log == old(log)
    {
      messageCount, tried := 0, [];
      if messages == [] {
        return false, "No messages loaded", 0, [];
      }
      var index := 0;
      var i := 0;
      assert attempts[..0] == [];
      while i < |attempts|
        invariant RunState(attempts, i, old(calls), old(log), index, messageCount, tried)
      {
        index, messageCount, tried := LoopStep(attempts, i, old(calls), old(log), index, messageCount, tried);
        i := i + 1;
      }
      assert Outcomes(Configured(), attempts)[..|attempts|] == Outcomes(Configured(), attempts);
      assert attempts[..|attempts|] == attempts;
      return true, "Auto-messaging stopped. Total sent: " + NatToString(messageCount), messageCount, tried;
    }

    /** Token and target are both set, so sends reach the Graph API. */
    predicate Configured()
      reads this
    {
      Present(token) && Present(targetUser)
    }

    /** The counters of the auto loop after its first `i` attempts. */
    ghost predicate RunState(attempts: seq<Attempt>, i: nat, calls0: seq<ApiCall>, log0: seq<Activity>,
                             index: nat, count: nat, tried: seq<nat>)
      reads this
    {
      var n := |messages|;
      && i <= |attempts| && n > 0 && index < n
      && count == Rotation.Successes(Outcomes(Configured(), attempts)[..i])
      && index == Rotation.After(n, 0, Outcomes(Configured(), attempts)[..i])
      && tried == Rotation.Schedule(n, 0, Outcomes(Configured(), attempts)[..i])
      && (Configured() ==> calls == calls0 + PostsFor(fernet, cipher, token.value, targetUser.value, messages, tried, attempts[..i]))
      && (Configured() ==> log == log0 + ActivitiesFor(fernet, cipher, targetUser.value, messages, tried, attempts[..i]))
      && (!Configured() ==> calls == calls0 && log == log0)
    }

    /** One iteration of the auto loop. */
    method LoopStep(attempts: seq<Attempt>, i: nat, ghost calls0: seq<ApiCall>, ghost log0: seq<Activity>,
                    index: nat, count: nat, ghost tried: seq<nat>)
      returns (index': nat, count': nat, ghost tried': seq<nat>)
      requires i < |attempts| && RunState(attempts, i, calls0, log0, index, count, tried)
      modifies this`calls, this`log
      ensures RunState(attempts, i + 1, calls0, log0, index', count', tried')
    {
      var n := |messages|;
      ghost var outs := Outcomes(Configured(), attempts);
      ghost var callsBefore := calls;
      ghost var logBefore := log;
      Rotation.RunStep(n, 0, outs, i);
      var message := messages[index];
      var ok, result := SendEncryptedMessage(message, attempts[i]);
      assert ok == outs[i];
      if Configured() {
        RunStepRecords(fernet, cipher, token.value, targetUser.value, messages, tried, attempts, index, i,
                       calls0, callsBefore, calls, log0, logBefore, log);
      }
      tried' := tried + [index];
      if ok {
        count' := count + 1;
        Rotation.NextIsModulo(index, n);
        index' := (index + 1) % n;
      } else {
        count', index' := count, index;
      }
    }

    /** `decrypt_received_message`, given the text typed at the prompt, of
        which `input()` reads the first line: scans the lines of what was read
        for the ciphertext and returns at the first payload line. */
    method DecryptReceivedMessage(typed: string) returns (ok: bool, text: string)
      ensures (ok, text) == ReceivedResult(InputLine(typed), fernet, cipher)
    {
      var msg := Strip(InputLine(typed));
      if msg == "" {
        return false, "No message provided";
      }
      if Contains(msg, EncryptedMarker) {
        var lines := Split(msg, '\n');
        var i := 0;
        while i < |lines|
          invariant 0 <= i <= |lines|
          invariant FirstPayloadFrom(lines, i) == FirstPayloadFrom(lines, 0)
        {
          if IsPayloadLine(lines[i]) {
            var content := Strip(lines[i]);
            return true, Crypto.DecryptMessage(fernet, content, cipher);
          }
          i := i + 1;
        }
      }
      return true, Crypto.DecryptMessage(fernet, msg, cipher);
    }
  }
}
