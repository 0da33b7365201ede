/**
 * userid_to_e2ee_messenger.py: `UserIDToE2EEMessenger`, which turns a numeric
 * Facebook user id into an "E2EE thread id" and posts encrypted envelopes to
 * it in cyclic order.
 *
 * Files are inputs (`None` for a missing file); Graph API requests are
 * recorded in `calls`; records appended to logs/e2ee_conversion_logs.json
 * are recorded in `log`.
 */
module UserIdMessenger {
  import opened Basics
  import opened Text
  import Crypto
  import Rotation

  const TokenPrefix := "EA"
  const ThreadIdLength: nat := 17
  const PadBelow: nat := 15
  const LogExcerptLength: nat := 100

  /** `load_token`: config/token.txt, read in text mode and stripped;
      accepted only when it starts with "EA". */
  function LoadToken(file: Option<string>): (r: Option<string>)
    ensures r.Some? <==> file.Some? && StartsWith(ReadStripped(file.value), TokenPrefix)
    ensures r.Some? ==> r.value == ReadStripped(file.value) && r.value != "" && StartsWith(r.value, TokenPrefix)
  {
    if file.None? then None
    else
      var t := ReadStripped(file.value);
      if t != "" && StartsWith(t, TokenPrefix) then Some(t) else None
  }

  /** `load_user_id`: config/user_id.txt, stripped; accepted only when it is
      a non-empty string of digits. */
  function LoadUserId(file: Option<string>): (r: Option<string>)
    ensures r.Some? <==> file.Some? && IsDigits(Strip(file.value))
    ensures r.Some? ==> r.value == Strip(file.value)
  {
    if file.None? then None
    else
      var u := Strip(file.value);
      if u != "" && IsDigits(u) then Some(u) else None
  }

  /** A stored digit string is read back as itself, whatever whitespace surrounds it. */
  lemma LoadUserIdStable(u: string, pad: string)
    requires IsDigits(u) && forall i :: 0 <= i < |pad| ==> IsPySpace(pad[i])
    ensures LoadUserId(Some(u + pad)) == Some(u)
  {
    TrimPadding(u, pad, IsPySpace);
  }

  /** The built-in messages used when config/messages.txt is missing. */
  function DefaultMessage(i: nat): string
    requires i < 5
  {
    match i
    case 0 => "Hello! This is E2EE encrypted message from automated system \U{1F510}"
    case 1 => "Your messages are securely encrypted with end-to-end encryption"
    case 2 => "This system automatically converts User ID to E2EE chat"
    case 3 => "All communications are private and secure \U{2705}"
    case 4 => "Automated E2EE messaging system is active \U{1F680}"
  }

  /** `load_messages`: the stripped non-blank lines of config/messages.txt, or
      five built-in messages when the file is missing. */
  function LoadMessages(file: Option<string>): (r: seq<string>)
    ensures file.None? ==> |r| == 5 && forall i :: 0 <= i < 5 ==> r[i] == DefaultMessage(i)
    ensures file.Some? ==> forall i :: 0 <= i < |r| ==> r[i] != "" && Strip(r[i]) == r[i]
  {
    if file.None? then seq(5, i requires 0 <= i < 5 => DefaultMessage(i)) else NonBlankLines(file.value)
  }

  /** Python `s.zfill(width)`: zeros inserted after an optional leading sign
      until the string is `width` long. */
  function ZFill(s: string, width: nat): (r: string)
    ensures |s| >= width ==> r == s
    ensures |s| < width ==> |r| == width
    ensures |s| < width && (s == [] || (s[0] != '+' && s[0] != '-')) ==>
              (forall i :: 0 <= i < width - |s| ==> r[i] == '0') && r[width - |s|..] == s
    ensures |s| < width && s != [] && (s[0] == '+' || s[0] == '-') ==>
              r[0] == s[0] && (forall i :: 1 <= i <= width - |s| ==> r[i] == '0') && r[width - |s| + 1..] == s[1..]
  {
    if |s| >= width then s
    else
      var zeros := seq(width - |s|, _ => '0');
      if s != [] && (s[0] == '+' || s[0] == '-') then [s[0]] + zeros + s[1..] else zeros + s
  }

  /** `create_e2ee_thread_id`: ids shorter than 15 characters are zero-filled
      to 17, longer ones cut to their first 17 characters. */
  function CreateE2EEThreadId(baseId: string): (r: string)
    ensures |r| <= ThreadIdLength
    ensures |baseId| < PadBelow ==> |r| == ThreadIdLength
    ensures |baseId| < PadBelow && IsDigits(baseId) ==>
              (forall i :: 0 <= i < ThreadIdLength - |baseId| ==> r[i] == '0')
              && r[ThreadIdLength - |baseId|..] == baseId
    ensures |baseId| >= PadBelow ==>
              StartsWith(baseId, r) && |r| == (if |baseId| < ThreadIdLength then |baseId| else ThreadIdLength)
    ensures PadBelow <= |baseId| <= ThreadIdLength ==> r == baseId
    ensures (forall i :: 0 <= i < |baseId| ==> IsAsciiDigit(baseId[i])) ==> IsDigits(r)
  {
    if |baseId| < PadBelow then ZFill(baseId, ThreadIdLength)
    else baseId[..if |baseId| < ThreadIdLength then |baseId| else ThreadIdLength]
  }

  /** Thread-id extraction from the reply to the first message: the part of
      `message_id` before its first '_', or the user id when the reply has
      no `message_id`. */
  function ThreadIdFromResponse(messageId: Option<string>, userId: string): (r: string)
    ensures messageId.None? ==> r == userId
    ensures messageId.Some? ==>
      && '_' !in r && StartsWith(messageId.value, r)
      && (|r| < |messageId.value| ==> messageId.value[|r|] == '_')
  {
    if messageId.None? then userId
    else
      SplitHead(messageId.value, '_');
      Split(messageId.value, '_')[0]
  }

  /** What the Graph API answered to the conversation-starting POST. */
  datatype ConversationReply =
    | ConvOk(messageId: Option<string>)  // HTTP 200, with the `message_id` field if present
    | ConvRejected                       // another status
    | ConvError                          // `requests` or the JSON decoding raised

  /** `get_e2ee_thread_id`: the normalised thread id of the reply, falling
      back to the normalised user id whenever the reply carries no usable id. */
  function GetE2EEThreadId(userId: string, reply: ConversationReply): (r: string)
    ensures |r| <= ThreadIdLength
    ensures !(reply.ConvOk? && reply.messageId.Some?) ==> r == CreateE2EEThreadId(userId)
    ensures reply.ConvOk? && reply.messageId.Some? ==>
              r == CreateE2EEThreadId(Split(reply.messageId.value, '_')[0])
  {
    match reply
    case ConvOk(mid) => CreateE2EEThreadId(ThreadIdFromResponse(mid, userId))
    case _ => CreateE2EEThreadId(userId)
  }

  /** A digit-only user id whose reply carries a digit-only message id prefix
      gives a digit-only thread id of at most 17 digits. */
  lemma ThreadIdDigits(userId: string, reply: ConversationReply)
    requires IsDigits(userId)
    requires reply.ConvOk? && reply.messageId.Some? ==> IsDigits(Split(reply.messageId.value, '_')[0])
    ensures IsDigits(GetE2EEThreadId(userId, reply))
  {
  }

  /** Python's rendering of an optional string in an f-string. */
  function PyStr(o: Option<string>): string {
    if o.Some? then o.value else "None"
  }

  /** A message body the bot posts: plain text, or the envelope of
      userid_to_e2ee_messenger.py:214-225 with its four substituted fields. */
  datatype Outgoing =
    | Plain(text: string)
    | EnvelopeOf(threadId: string, encrypted: string, userId: string, timestamp: string)

  /** The text that goes on the wire for a message body. */
  function WireText(o: Outgoing): string {
    match o
    case Plain(t) => t
    case EnvelopeOf(threadId, encrypted, userId, timestamp) =>
      "\U{1F510} **E2EE ENCRYPTED MESSAGE**\n\n**Thread ID:** " + threadId
      + "\n**Encrypted Content:**\n" + encrypted
      + "\n\n**Original User ID:** " + userId
      + "\n**Converted to E2EE:** \U{2705} Success\n**Timestamp:** " + timestamp
      + "\n\n**Status:** \U{1F512} End-to-End Encrypted\n**Note:** This message was automatically encrypted"
  }

  const InitText := "\U{1F510} Initializing E2EE encrypted chat..."
  const TestMessagePrefix := "\U{1F9EA} TEST: This is E2EE encrypted test message - "

  /** The outcome of one POST of an envelope. */
  datatype Delivery =
    | Delivered(elapsedMs: string)        // HTTP 200, with the rounded response time
    | Rejected(apiError: Option<string>)  // another status; the JSON error message, if any
    | NetworkError(detail: string)        // `requests` raised

  function ErrorText(e: Option<string>): string {
    if e.Some? then e.value else "Unknown error"
  }

  /** One send, as the environment decides it. */
  datatype Attempt = Attempt(timestamp: string, nonce: Crypto.Bytes, outcome: Delivery)

  function Outcomes(attempts: seq<Attempt>): (r: seq<bool>)
    ensures |r| == |attempts|
  {
    seq(|attempts|, i requires 0 <= i < |attempts| => attempts[i].outcome.Delivered?)
  }

  datatype ApiCall = TokenCheck(token: Option<string>) | Post(recipient: string, body: Outgoing)

  /** A record of logs/e2ee_conversion_logs.json (the timestamp is left out). */
  datatype LogRecord = LogRecord(status: string, userId: string, threadId: string,
                                 message: string, encryptedExcerpt: string, details: string)

  /** The stored form of the ciphertext: the first 100 characters and "..." when longer. */
  function LogExcerpt(encrypted: string): (r: string)
    ensures |encrypted| <= LogExcerptLength ==> r == encrypted
    ensures |encrypted| > LogExcerptLength ==>
              |r| == LogExcerptLength + 3 && r[..LogExcerptLength] == encrypted[..LogExcerptLength]
              && r[LogExcerptLength..] == "..."
  {
    Truncate(encrypted, LogExcerptLength)
  }

  /** The text `send_e2ee_message` returns after posting to thread `t`. */
  function SendResult(t: string, d: Delivery): string {
    match d
    case Delivered(_) => "\U{2705} E2EE Message sent! Thread: " + t
    case Rejected(e) => "\U{274C} Send failed: " + ErrorText(e)
    case NetworkError(x) => "\U{274C} Network error: " + x
  }

  /** The status a logged record gives the outcome of a send. */
  function LogStatus(d: Delivery): string {
    match d
    case Delivered(_) => "E2EE_MESSAGE_SENT"
    case Rejected(_) => "E2EE_MESSAGE_FAILED"
    case NetworkError(_) => "E2EE_MESSAGE_ERROR"
  }

  /** The detail a logged record gives: the response time, or the error. */
  function LogDetail(d: Delivery): string {
    match d
    case Delivered(ms) => "SUCCESS (" + ms + "ms)"
    case Rejected(e) => "FAILED: " + ErrorText(e)
    case NetworkError(x) => "NETWORK_ERROR: " + x
  }

  /** Why `verify_setup` refused, or that it succeeded. */
  datatype SetupStatus = MissingToken | MissingUserId | NoMessages | NoEncryption | TokenInvalid | Ready

  class UserIdToE2EEMessenger {
    // Loaded once by the constructor.
    const token: Option<string>
    const userId: Option<string>
    const messages: seq<string>
    const fernet: Option<Crypto.Key>
    const cipher: Crypto.Cipher

    var e2eeThreadId: Option<string>
    var calls: seq<ApiCall>
    var log: seq<LogRecord>

    /** `__init__`, with the files it reads given as inputs; `key` is what
        `setup_encryption` returns (`None` when it failed). */
    constructor (tokenFile: Option<string>, userIdFile: Option<string>, messageFile: Option<string>,
                 key: Option<Crypto.Key>, cipher: Crypto.Cipher)
      ensures token == LoadToken(tokenFile) && userId == LoadUserId(userIdFile)
      ensures messages == LoadMessages(messageFile) && fernet == key && this.cipher == cipher
      ensures e2eeThreadId.None? && calls == [] && log == []
    {
      token := LoadToken(tokenFile);
      userId := LoadUserId(userIdFile);
      messages := LoadMessages(messageFile);
      fernet := key;
      this.cipher := cipher;
      e2eeThreadId := None;
      calls := [];
      log := [];
    }

    /** `verify_setup`: token, user id, messages and encryption are checked in
        that order before any request; then the token is checked, and only a
        valid token leads to the conversation request and a thread id. */
    method VerifySetup(tokenValid: bool, reply: ConversationReply) returns (status: SetupStatus)
      modifies this`e2eeThreadId, this`calls
      ensures status.MissingToken? <==> !Present(token)
      ensures status.MissingUserId? <==> Present(token) && !Present(userId)
      ensures status.NoMessages? <==> Present(token) && Present(userId) && messages == []
      ensures status.NoEncryption? <==> Present(token) && Present(userId) && messages != [] && fernet.None?
      ensures status.TokenInvalid? <==>
                Present(token) && Present(userId) && messages != [] && fernet.Some? && !tokenValid
      ensures status.MissingToken? || status.MissingUserId? || status.NoMessages? || status.NoEncryption? ==>
                calls == old(calls) && e2eeThreadId == old(e2eeThreadId)
      ensures status.TokenInvalid? ==> calls == old(calls) + [TokenCheck(token)] && e2eeThreadId == old(e2eeThreadId)
      ensures status.Ready? ==>
                && calls == old(calls) + [TokenCheck(token), Post(userId.value, Plain(InitText))]
                && e2eeThreadId == Some(GetE2EEThreadId(userId.value, reply))
    {
      if !Present(token) {
        return MissingToken;
      }
      if !Present(userId) {
        return MissingUserId;
      }
      if messages == [] {
        return NoMessages;
      }
      if fernet.None? {
        return NoEncryption;
      }
      calls := calls + [TokenCheck(token)];
      if !tokenValid {
        return TokenInvalid;
      }
      calls := calls + [Post(userId.value, Plain(InitText))];
      e2eeThreadId := Some(GetE2EEThreadId(userId.value, reply));
      return Ready;
    }

    /** The envelope that carries `message` for attempt `a`. */
    function EnvelopeFor(threadId: string, message: string, a: Attempt): Outgoing {
      EnvelopeOf(threadId, Crypto.EncryptMessage(fernet, message, cipher, a.nonce), PyStr(userId), a.timestamp)
    }

    /** The record `send_e2ee_message` logs for `message` sent to thread `t`
        in attempt `a`: the status and detail of the outcome, the user id, the
        thread, the plaintext and the excerpt of the ciphertext. */
    function RecordFor(t: string, message: string, a: Attempt): LogRecord {
      LogRecord(LogStatus(a.outcome), PyStr(userId), t, message,
                LogExcerpt(Crypto.EncryptMessage(fernet, message, cipher, a.nonce)), LogDetail(a.outcome))
    }

    /** `send_e2ee_message`: nothing happens without a thread id; otherwise one
        POST carries the envelope and one record is logged, whatever the outcome. */
    method SendE2EEMessage(message: string, a: Attempt) returns (ok: bool, result: string)
      modifies this`calls, this`log
      ensures !Present(e2eeThreadId) ==>
                !ok && result == "E2EE thread not setup" && calls == old(calls) && log == old(log)
      ensures Present(e2eeThreadId) ==>
        var t := e2eeThreadId.value;
        && ok == a.outcome.Delivered?
        && calls == old(calls) + [Post(t, EnvelopeFor(t, message, a))]
        && result == SendResult(t, a.outcome)
        && log == old(log) + [RecordFor(t, message, a)]
    {
      if !Present(e2eeThreadId) {
        return false, "E2EE thread not setup";
      }
      var t := e2eeThreadId.value;
      var enc := Crypto.EncryptMessage(fernet, message, cipher, a.nonce);
      calls := calls + [Post(t, EnvelopeOf(t, enc, PyStr(userId), a.timestamp))];
      match a.outcome {
        case Delivered(ms) =>
          log := log + [LogRecord("E2EE_MESSAGE_SENT", PyStr(userId), t, message, LogExcerpt(enc), "SUCCESS (" + ms + "ms)")];
          ok, result := true, "\U{2705} E2EE Message sent! Thread: " + t;
        case Rejected(e) =>
          log := log + [LogRecord("E2EE_MESSAGE_FAILED", PyStr(userId), t, message, LogExcerpt(enc), "FAILED: " + ErrorText(e))];
          ok, result := false, "\U{274C} Send failed: " + ErrorText(e);
        case NetworkError(x) =>
          log := log + [LogRecord("E2EE_MESSAGE_ERROR", PyStr(userId), t, message, LogExcerpt(enc), "NETWORK_ERROR: " + x)];
          ok, result := false, "\U{274C} Network error: " + x;
      }
    }

    /** `send_test_message`: after a successful setup, one test message whose
        text ends in `testClock`; the result text is `None` when the setup
        refused, which leaves the thread id and the log as they were. */
    method SendTestMessage(tokenValid: bool, reply: ConversationReply, testClock: string, a: Attempt)
      returns (status: SetupStatus, result: Option<string>)
      modifies this`e2eeThreadId, this`calls, this`log
      ensures status.Ready? <==> Present(token) && Present(userId) && messages != [] && fernet.Some? && tokenValid
      ensures !status.Ready? ==>
                && result.None? && log == old(log) && e2eeThreadId == old(e2eeThreadId)
                && calls == (if status.TokenInvalid? then old(calls) + [TokenCheck(token)] else old(calls))
      ensures status.Ready? ==>
                var t := GetE2EEThreadId(userId.value, reply);
                var m := TestMessagePrefix + testClock;
                && e2eeThreadId == Some(t) && result == Some(SendResult(t, a.outcome))
                && calls == old(calls) + [TokenCheck(token), Post(userId.value, Plain(InitText)), Post(t, EnvelopeFor(t, m, a))]
                && log == old(log) + [RecordFor(t, m, a)]
    {
      status := VerifySetup(tokenValid, reply);
      if !status.Ready? {
        return status, None;
      }
      var ok, r := SendE2EEMessage(TestMessagePrefix + testClock, a);
      result := Some(r);
    }

    /** The POSTs a run of attempts makes to `threadId`, `tried[j]` being
        the message index of attempt `j`. */
    function PostsFor(threadId: string, tried: seq<nat>, attempts: seq<Attempt>): (r: seq<ApiCall>)
      requires |tried| == |attempts|
      requires forall j :: 0 <= j < |tried| ==> tried[j] < |messages|
      ensures |r| == |attempts|
    {
      seq(|attempts|, j requires 0 <= j < |attempts| =>
        Post(threadId, EnvelopeFor(threadId, messages[tried[j]], attempts[j])))
    }

    lemma PostsForSnoc(threadId: string, tried: seq<nat>, attempts: seq<Attempt>, c: nat, i: nat)
      requires |tried| == i < |attempts| && c < |messages|
      requires forall j :: 0 <= j < |tried| ==> tried[j] < |messages|
      ensures PostsFor(threadId, tried + [c], attempts[..i + 1]) ==
              PostsFor(threadId, tried, attempts[..i]) + [Post(threadId, EnvelopeFor(threadId, messages[c], attempts[i]))]
    {
      var l := PostsFor(threadId, tried + [c], attempts[..i + 1]);
      var r := PostsFor(threadId, tried, attempts[..i]) + [Post(threadId, EnvelopeFor(threadId, messages[c], attempts[i]))];
      forall j | 0 <= j < |l| ensures l[j] == r[j] {
        if j < i {
          assert (tried + [c])[j] == tried[j] && attempts[..i + 1][j] == attempts[..i][j];
        }
      }
    }

    /** The records a run of attempts logs for thread `threadId`, `tried[j]`
        being the message index of attempt `j`. */
    function RecordsFor(threadId: string, tried: seq<nat>, attempts: seq<Attempt>): seq<LogRecord>
      requires |tried| == |attempts|
      requires forall j :: 0 <= j < |tried| ==> tried[j] < |messages|
      decreases |attempts|
    {
      if attempts == [] then []
      else RecordsFor(threadId, tried[..|tried| - 1], attempts[..|attempts| - 1])
           + [RecordFor(threadId, messages[tried[|tried| - 1]], attempts[|attempts| - 1])]
    }

    lemma RecordsForSnoc(threadId: string, tried: seq<nat>, attempts: seq<Attempt>, c: nat, i: nat)
      requires |tried| == i < |attempts| && c < |messages|
      requires forall j :: 0 <= j < |tried| ==> tried[j] < |messages|
      ensures RecordsFor(threadId, tried + [c], attempts[..i + 1]) ==
              RecordsFor(threadId, tried, attempts[..i]) + [RecordFor(threadId, messages[c], attempts[i])]
    {
      assert (tried + [c])[..i] == tried;
      assert attempts[..i + 1][..i] == attempts[..i];
    }

    /** `start_auto_e2ee_messaging`: after a successful setup, sends the
        message under a local cursor that starts at 0 and moves to
        `(index + 1) % len(messages)` only after a successful send, over the
        given attempts (the run is interrupted after the last one). */
    method StartAutoE2EEMessaging(tokenValid: bool, reply: ConversationReply, attempts: seq<Attempt>)
      returns (status: SetupStatus, messageCount: nat, ghost tried: seq<nat>)
      modifies this`e2eeThreadId, this`calls, this`log
      ensures status.Ready? <==> Present(token) && Present(userId) && messages != [] && fernet.Some? && tokenValid
      ensures !status.Ready? ==>
                && messageCount == 0 && log == old(log) && e2eeThreadId == old(e2eeThreadId)
                && calls == (if status.TokenInvalid? then old(calls) + [TokenCheck(token)] else old(calls))
      ensures status.Ready? ==>
        && e2eeThreadId == Some(GetE2EEThreadId(userId.value, reply))
        && messageCount == Rotation.Successes(Outcomes(attempts))
        && tried == Rotation.Schedule(|messages|, 0, Outcomes(attempts))
        && calls == old(calls) + [TokenCheck(token), Post(userId.value, Plain(InitText))]
                                + PostsFor(e2eeThreadId.value, tried, attempts)
        && log == old(log) + RecordsFor(e2eeThreadId.value, tried, attempts)
    {
      messageCount, tried := 0, [];
      status := VerifySetup(tokenValid, reply);
      if !status.Ready? {
        return;
      }
      ghost var calls0 := calls;
      ghost var log0 := log;
      var index := 0;
      var i := 0;
      assert attempts[..0] == [];
      while i < |attempts|
        invariant e2eeThreadId == Some(GetE2EEThreadId(userId.value, reply))
        invariant RunState(attempts, i, calls0, log0, index, messageCount, tried)
      {
        index, messageCount, tried := LoopStep(attempts, i, calls0, log0, index, messageCount, tried);
        i := i + 1;
      }
      assert Outcomes(attempts)[..|attempts|] == Outcomes(attempts);
      assert attempts[..|attempts|] == attempts;
    }

    /** The counters of the auto loop after its first `i` attempts. */
    ghost predicate RunState(attempts: seq<Attempt>, i: nat, calls0: seq<ApiCall>, log0: seq<LogRecord>,
                             index: nat, count: nat, tried: seq<nat>)
      reads this
    {
      var n := |messages|;
      && i <= |attempts| && n > 0 && index < n && Present(e2eeThreadId)
      && count == Rotation.Successes(Outcomes(attempts)[..i])
      && index == Rotation.After(n, 0, Outcomes(attempts)[..i])
      && tried == Rotation.Schedule(n, 0, Outcomes(attempts)[..i])
      && calls == calls0 + PostsFor(e2eeThreadId.value, tried, attempts[..i])
      && log == log0 + RecordsFor(e2eeThreadId.value, tried, attempts[..i])
    }

    /** One iteration of the auto loop. */
    method LoopStep(attempts: seq<Attempt>, i: nat, ghost calls0: seq<ApiCall>, ghost log0: seq<LogRecord>,
                    index: nat, count: nat, ghost tried: seq<nat>)
      returns (index': nat, count': nat, ghost tried': seq<nat>)
      requires i < |attempts| && RunState(attempts, i, calls0, log0, index, count, tried)
      modifies this`calls, this`log
      ensures RunState(attempts, i + 1, calls0, log0, index', count', tried')
    {
      var n := |messages|;
      ghost var outs := Outcomes(attempts);
      ghost var callsBefore := calls;
      ghost var logBefore := log;
      Rotation.RunStep(n, 0, outs, i);
      var message := messages[index];
      var ok, result := SendE2EEMessage(message, attempts[i]);
      assert ok == outs[i];
      ghost var t := e2eeThreadId.value;
      assert calls == callsBefore + [Post(t, EnvelopeFor(t, messages[index], attempts[i]))];
      RecordStep(t, tried, attempts, index, i, calls0, callsBefore, calls, log0, logBefore, log);
      Rotation.NextIsModulo(index, n);
      tried' := tried + [index];
      count' := if ok then count + 1 else count;
      index' := if ok then (index + 1) % n else index;
    }

    /** What one send adds to the request record and the log extends the
        run's POSTs and records by that attempt's. */
    lemma RecordStep(t: string, tried: seq<nat>, attempts: seq<Attempt>, c: nat, i: nat,
                     calls0: seq<ApiCall>, callsBefore: seq<ApiCall>, callsAfter: seq<ApiCall>,
                     log0: seq<LogRecord>, logBefore: seq<LogRecord>, logAfter: seq<LogRecord>)
      requires |tried| == i < |attempts| && c < |messages|
      requires forall j :: 0 <= j < |tried| ==> tried[j] < |messages|
      requires callsBefore == calls0 + PostsFor(t, tried, attempts[..i])
      requires callsAfter == callsBefore + [Post(t, EnvelopeFor(t, messages[c], attempts[i]))]
      requires logBefore == log0 + RecordsFor(t, tried, attempts[..i])
      requires logAfter == logBefore + [RecordFor(t, messages[c], attempts[i])]
      ensures callsAfter == calls0 + PostsFor(t, tried + [c], attempts[..i + 1])
      ensures logAfter == log0 + RecordsFor(t, tried + [c], attempts[..i + 1])
    {
      PostsForSnoc(t, tried, attempts, c, i);
      RecordsForSnoc(t, tried, attempts, c, i);
    }
  }
}
