/**
 * main.py: `E2EEFacebookMessenger`, a bot that encrypts each message of a
 * list and posts it to one user through the Graph API, in cyclic order, on a
 * fixed interval.
 *
 * Files are inputs (`Option<string>`, `None` for a missing file); every Graph
 * API request is recorded in `calls`; every line the bot appends to
 * logs/message_log.txt is recorded in `log`.
 */
module FacebookMessenger {
  import opened Basics
  import opened Text
  import Crypto
  import Rotation

  const TokenPlaceholder := "YOUR_FACEBOOK_TOKEN_HERE"
  const UserIdPlaceholder := "FACEBOOK_USER_ID_HERE"
  const FrameHeader := "\U{1F510} ENCRYPTED_MESSAGE"
  const TestMessagePrefix := "\U{2705} Test message from E2EE Bot - "

  /** The stripped contents of a one-value file (read in text mode, so with
      its newlines translated), refused when empty or still holding its
      placeholder; `None` also when the file is missing. */
  function LoadSetting(file: Option<string>, placeholder: string): (r: Option<string>)
    ensures file.None? ==> r.None?
    ensures r.Some? ==> r.value != "" && r.value != placeholder && Strip(r.value) == r.value
    ensures file.Some? && ReadStripped(file.value) != "" && ReadStripped(file.value) != placeholder ==>
              r == Some(ReadStripped(file.value))
  {
    if file.None? then None
    else
      var v := ReadStripped(file.value);
      if v == "" || v == placeholder then None else Some(v)
  }

  /** `load_token`: token.txt, refused when empty or `YOUR_FACEBOOK_TOKEN_HERE`. */
  function LoadToken(file: Option<string>): (r: Option<string>)
    ensures r.Some? ==> r.value != "" && r.value != TokenPlaceholder && Strip(r.value) == r.value
    ensures r.None? <==> file.None? || ReadStripped(file.value) == "" || ReadStripped(file.value) == TokenPlaceholder
  {
    LoadSetting(file, TokenPlaceholder)
  }

  /** `load_user_id`: user_id.txt, refused when empty or `FACEBOOK_USER_ID_HERE`. */
  function LoadUserId(file: Option<string>): (r: Option<string>)
    ensures r.Some? ==> r.value != "" && r.value != UserIdPlaceholder && Strip(r.value) == r.value
    ensures r.None? <==> file.None? || ReadStripped(file.value) == "" || ReadStripped(file.value) == UserIdPlaceholder
  {
    LoadSetting(file, UserIdPlaceholder)
  }

  /** A saved setting is read back as itself. */
  lemma LoadSettingStable(v: string, placeholder: string)
    requires v != "" && v != placeholder && Strip(v) == v && '\r' !in v
    ensures LoadSetting(Some(v), placeholder) == Some(v)
  {
    ReadStrippedStable(v);
  }

  /** The text posted for one message: a header line, the ciphertext line and
      a clock line. */
  function Frame(ciphertext: string, clock: string): string {
    FrameHeader + "\n" + ciphertext + "\n\U{23F0} " + clock
  }

  /** What the transport reports for one POST to the Graph API. */
  datatype Delivery =
    | Delivered                           // HTTP 200
    | Rejected(apiError: Option<string>)  // another status; the JSON error message, if any
    | NetworkError(detail: string)        // `requests` raised

  /** The detail written to the log for a failed send. */
  function ErrorDetail(d: Delivery): string {
    match d
    case Delivered => ""
    case Rejected(e) => if e.Some? then e.value else "Unknown error"
    case NetworkError(x) => "Network: " + x
  }

  /** A request made to the Graph API. */
  datatype ApiCall = TokenCheck(token: Option<string>) | Post(recipient: string, text: string)

  /** An entry of logs/message_log.txt (the timestamp is left out). */
  datatype LogEntry = Sent(position: nat, message: string) | Error(detail: string) | Restart

  /** One iteration of the auto-send loop, as the environment decides it. */
  datatype Attempt = Attempt(clock: string, nonce: Crypto.Bytes, outcome: Delivery)

  function Outcomes(attempts: seq<Attempt>): (r: seq<bool>)
    ensures |r| == |attempts|
  {
    seq(|attempts|, i requires 0 <= i < |attempts| => attempts[i].outcome.Delivered?)
  }

  /** The elements of a sequence of chunks, chunk after chunk. */
  function Flatten<T>(chunks: seq<seq<T>>): seq<T>
    decreases |chunks|
  {
    if chunks == [] then [] else Flatten(chunks[..|chunks| - 1]) + chunks[|chunks| - 1]
  }

  lemma FlattenSnoc<T>(chunks: seq<seq<T>>, c: seq<T>)
    ensures Flatten(chunks + [c]) == Flatten(chunks) + c
  {
    assert (chunks + [c])[..|chunks|] == chunks;
  }

  class E2EEFacebookMessenger {
    // Loaded once by the constructor.
    const token: Option<string>
    const messages: seq<string>
    const fernet: Option<Crypto.Key>
    const targetUser: Option<string>
    const cipher: Crypto.Cipher

    var currentIndex: nat
    var isRunning: bool
    var calls: seq<ApiCall>
    var log: seq<LogEntry>

    /** The cursor points into the message list (or is 0 when there is none). */
    ghost predicate Valid()
      reads this
    {
      currentIndex == 0 || currentIndex < |messages|
    }

    /** `__init__`, with the files it reads given as inputs; `key` is what
        `load_or_create_encryption_key` returns. */
    constructor (tokenFile: Option<string>, messageFile: Option<string>, key: Option<Crypto.Key>,
                 userIdFile: Option<string>, cipher: Crypto.Cipher)
      ensures Valid()
      ensures token == LoadToken(tokenFile) && messages == ReadLines(messageFile)
      ensures targetUser == LoadUserId(userIdFile) && this.cipher == cipher
      ensures fernet == (if key.Some? && key.value != [] then key else None)
      ensures currentIndex == 0 && isRunning && calls == [] && log == []
    {
      token := LoadToken(tokenFile);
      messages := ReadLines(messageFile);
      fernet := if key.Some? && key.value != [] then key else None;
      targetUser := LoadUserId(userIdFile);
      this.cipher := cipher;
      currentIndex := 0;
      isRunning := true;
      calls := [];
      log := [];
    }

    /** The POST that sends `message` for attempt `a`. */
    function PostFor(message: string, a: Attempt): ApiCall
      requires targetUser.Some?
    {
      Post(targetUser.value, Frame(Crypto.EncryptMessage(fernet, message, cipher, a.nonce), a.clock))
    }

    /** The POSTs a run of attempts makes, `tried[j]` being the message index
        of attempt `j`. */
    function PostsFor(tried: seq<nat>, attempts: seq<Attempt>): (r: seq<ApiCall>)
      requires targetUser.Some? && |tried| == |attempts|
      requires forall j :: 0 <= j < |tried| ==> tried[j] < |messages|
      ensures |r| == |attempts|
    {
      seq(|attempts|, j requires 0 <= j < |attempts| => PostFor(messages[tried[j]], attempts[j]))
    }

    lemma PostsForSnoc(tried: seq<nat>, attempts: seq<Attempt>, c: nat, i: nat)
      requires targetUser.Some? && |tried| == i < |attempts| && c < |messages|
      requires forall j :: 0 <= j < |tried| ==> tried[j] < |messages|
      ensures PostsFor(tried + [c], attempts[..i + 1]) == PostsFor(tried, attempts[..i]) + [PostFor(messages[c], attempts[i])]
    {
    }

    /** The log lines one attempt writes with the cursor at `c`: the sent
        line, followed by a restart when `c` was the last message; or the
        error line. */
    function LogFor(c: nat, a: Attempt): seq<LogEntry>
      requires c < |messages|
    {
      if a.outcome.Delivered? then [Sent(c + 1, messages[c])] + (if c + 1 == |messages| then [Restart] else [])
      else [Error(ErrorDetail(a.outcome))]
    }

    /** The log lines of each attempt of a run, `tried[j]` being the cursor
        at attempt `j`. */
    function LogChunks(tried: seq<nat>, attempts: seq<Attempt>): (r: seq<seq<LogEntry>>)
      requires |tried| == |attempts|
      requires forall j :: 0 <= j < |tried| ==> tried[j] < |messages|
      ensures |r| == |attempts|
    {
      seq(|attempts|, j requires 0 <= j < |attempts| => LogFor(tried[j], attempts[j]))
    }

    /** The log lines a run of attempts writes, in order. */
    function LogsFor(tried: seq<nat>, attempts: seq<Attempt>): seq<LogEntry>
      requires |tried| == |attempts|
      requires forall j :: 0 <= j < |tried| ==> tried[j] < |messages|
    {
      Flatten(LogChunks(tried, attempts))
    }

    lemma LogsForSnoc(tried: seq<nat>, attempts: seq<Attempt>, c: nat, i: nat)
      requires |tried| == i < |attempts| && c < |messages|
      requires forall j :: 0 <= j < |tried| ==> tried[j] < |messages|
      ensures LogsFor(tried + [c], attempts[..i + 1]) == LogsFor(tried, attempts[..i]) + LogFor(c, attempts[i])
    {
      var l := LogChunks(tried + [c], attempts[..i + 1]);
      var r := LogChunks(tried, attempts[..i]) + [LogFor(c, attempts[i])];
      forall j | 0 <= j < |l| ensures l[j] == r[j] {
        if j < i {
          assert (tried + [c])[j] == tried[j] && attempts[..i + 1][j] == attempts[..i][j];
        }
      }
      assert l == r;
      FlattenSnoc(LogChunks(tried, attempts[..i]), LogFor(c, attempts[i]));
    }

    /** `send_encrypted_message`: nothing is sent without a target; otherwise
        one POST carries the framed ciphertext, and the log records the
        outcome. */
    method SendEncryptedMessage(message: string, a: Attempt) returns (ok: bool)
      modifies this`calls, this`log
      ensures !Present(targetUser) ==> !ok && calls == old(calls) && log == old(log)
      ensures Present(targetUser) ==>
        && ok == a.outcome.Delivered?
        && calls == old(calls) + [PostFor(message, a)]
        && log == old(log) + [if ok then Sent(currentIndex + 1, message) else Error(ErrorDetail(a.outcome))]
    {
      if !Present(targetUser) {
        return false;
      }
      var encrypted := Crypto.EncryptMessage(fernet, message, cipher, a.nonce);
      calls := calls + [Post(targetUser.value, Frame(encrypted, a.clock))];
      if a.outcome.Delivered? {
        log := log + [Sent(currentIndex + 1, message)];
        ok := true;
      } else {
        log := log + [Error(ErrorDetail(a.outcome))];
        ok := false;
      }
    }

    /** `send_next_encrypted_message`: sends the message under the cursor and
        moves the cursor only when the send succeeded, back to 0 after the
        last message (logging a restart). */
    method SendNextEncryptedMessage(a: Attempt) returns (ok: bool)
      requires Valid()
      modifies this`currentIndex, this`calls, this`log
      ensures Valid()
      ensures ok <==> messages != [] && Present(targetUser) && a.outcome.Delivered?
      ensures if messages == [] || !Present(targetUser) then
                currentIndex == old(currentIndex) && calls == old(calls) && log == old(log)
              else
                && calls == old(calls) + [PostFor(messages[old(currentIndex)], a)]
                && currentIndex == (if ok then Rotation.Next(old(currentIndex), |messages|) else old(currentIndex))
                && log == old(log) + (if !ok then [Error(ErrorDetail(a.outcome))]
                                      else [Sent(old(currentIndex) + 1, messages[old(currentIndex)])]
                                           + (if currentIndex == 0 then [Restart] else []))
                && log == old(log) + LogFor(old(currentIndex), a)
    {
      if messages == [] {
        return false;
      }
      var message := messages[currentIndex];
      var success := SendEncryptedMessage(message, a);
      if success {
        currentIndex := currentIndex + 1;
        if currentIndex >= |messages| {
          currentIndex := 0;
          log := log + [Restart];
        }
        return true;
      }
      return false;
    }

    /** `start_auto_encrypted_sending`: checks the token and refuses to
        start on a bad one or a missing target; sends the unencrypted test
        message and refuses to start when it fails; otherwise runs the send
        loop while `isRunning`, over the given attempts (the run is
        interrupted after the last one). Neither the check nor the test
        message writes to the log. `tried` is the message index each attempt
        sent. */
    method StartAutoEncryptedSending(tokenValid: bool, testClock: string, testOutcome: Delivery,
                                     attempts: seq<Attempt>)
      returns (started: bool, messageCount: nat, ghost tried: seq<nat>)
      requires Valid()
      modifies this`currentIndex, this`calls, this`log
      ensures Valid()
      ensures started <==> tokenValid && Present(targetUser) && testOutcome.Delivered?
      ensures !tokenValid || !Present(targetUser) ==> calls == old(calls) + [TokenCheck(token)]
      ensures !started || !isRunning || messages == [] ==>
                && messageCount == 0 && currentIndex == old(currentIndex) && log == old(log)
                && (tokenValid && Present(targetUser) ==>
                      calls == old(calls) + [TokenCheck(token), Post(targetUser.value, TestMessagePrefix + testClock)])
      ensures started && isRunning && messages != [] ==>
        && messageCount == Rotation.Successes(Outcomes(attempts))
        && tried == Rotation.Schedule(|messages|, old(currentIndex), Outcomes(attempts))
        && currentIndex == Rotation.After(|messages|, old(currentIndex), Outcomes(attempts))
        && calls == old(calls) + [TokenCheck(token), Post(targetUser.value, TestMessagePrefix + testClock)]
                    + PostsFor(tried, attempts)
        && log == old(log) + LogsFor(tried, attempts)
    {
      messageCount, tried := 0, [];
      calls := calls + [TokenCheck(token)];
      if !tokenValid {
        return false, 0, [];
      }
      if !Present(targetUser) {
        return false, 0, [];
      }
      calls := calls + [Post(targetUser.value, TestMessagePrefix + testClock)];
      if !testOutcome.Delivered? {
        return false, 0, [];
      }
      started := true;
      if messages == [] || !isRunning {
        return;
      }
      ghost var opening := calls;
      assert opening == old(calls) + [TokenCheck(token), Post(targetUser.value, TestMessagePrefix + testClock)];
      messageCount, tried := SendLoop(attempts);
      assert calls == opening + PostsFor(tried, attempts);
    }

    /** The counters of the send loop after its first `i` attempts, started
        at cursor `start` with the request record `calls0` and the log `log0`. */
    ghost predicate RunState(attempts: seq<Attempt>, i: nat, start: nat, calls0: seq<ApiCall>,
                             log0: seq<LogEntry>, count: nat, tried: seq<nat>)
      reads this
    {
      var n := |messages|;
      && i <= |attempts| && start < n && currentIndex < n && targetUser.Some?
      && count == Rotation.Successes(Outcomes(attempts)[..i])
      && currentIndex == Rotation.After(n, start, Outcomes(attempts)[..i])
      && tried == Rotation.Schedule(n, start, Outcomes(attempts)[..i])
      && calls == calls0 + PostsFor(tried, attempts[..i])
      && log == log0 + LogsFor(tried, attempts[..i])
    }

    /** The `while self.is_running` loop of the auto sender, one iteration per
        attempt: each attempt sends the message under the cursor. */
    method SendLoop(attempts: seq<Attempt>) returns (messageCount: nat, ghost tried: seq<nat>)
      requires Valid() && messages != [] && Present(targetUser) && isRunning
      modifies this`currentIndex, this`calls, this`log
      ensures Valid()
      ensures messageCount == Rotation.Successes(Outcomes(attempts))
      ensures tried == Rotation.Schedule(|messages|, old(currentIndex), Outcomes(attempts))
      ensures currentIndex == Rotation.After(|messages|, old(currentIndex), Outcomes(attempts))
      ensures calls == old(calls) + PostsFor(tried, attempts)
      ensures log == old(log) + LogsFor(tried, attempts)
    {
      ghost var start := currentIndex;
      messageCount, tried := 0, [];
      var i := 0;
      assert attempts[..0] == [];
      while i < |attempts| && isRunning
        invariant Valid() && RunState(attempts, i, start, old(calls), old(log), messageCount, tried)
      {
        messageCount, tried := LoopStep(attempts, i, start, old(calls), old(log), messageCount, tried);
        i := i + 1;
      }
      assert Outcomes(attempts)[..|attempts|] == Outcomes(attempts);
      assert attempts[..|attempts|] == attempts;
    }

    /** One iteration of the send loop. */
    method LoopStep(attempts: seq<Attempt>, i: nat, ghost start: nat, ghost calls0: seq<ApiCall>,
                    ghost log0: seq<LogEntry>, count: nat, ghost tried: seq<nat>)
      returns (count': nat, ghost tried': seq<nat>)
      requires Valid() && messages != [] && Present(targetUser) && i < |attempts|
      requires RunState(attempts, i, start, calls0, log0, count, tried)
      modifies this`currentIndex, this`calls, this`log
      ensures Valid() && RunState(attempts, i + 1, start, calls0, log0, count', tried')
    {
      var a := attempts[i];
      var n := |messages|;
      ghost var outs := Outcomes(attempts);
      ghost var before := currentIndex;
      ghost var callsBefore := calls;
      ghost var logBefore := log;
      Rotation.RunStep(n, start, outs, i);
      var ok := SendNextEncryptedMessage(a);
      assert ok == outs[i];
      RecordStep(tried, attempts, before, i, calls0, callsBefore, calls, log0, logBefore, log);
      count' := if ok then count + 1 else count;
      tried' := tried + [before];
    }

    /** What one send adds to the request record and the log extends the
        run's POSTs and log lines by that attempt's. */
    lemma RecordStep(tried: seq<nat>, attempts: seq<Attempt>, c: nat, i: nat,
                     calls0: seq<ApiCall>, callsBefore: seq<ApiCall>, callsAfter: seq<ApiCall>,
                     log0: seq<LogEntry>, logBefore: seq<LogEntry>, logAfter: seq<LogEntry>)
      requires targetUser.Some? && |tried| == i < |attempts| && c < |messages|
      requires forall j :: 0 <= j < |tried| ==> tried[j] < |messages|
      requires callsBefore == calls0 + PostsFor(tried, attempts[..i])
      requires callsAfter == callsBefore + [PostFor(messages[c], attempts[i])]
      requires logBefore == log0 + LogsFor(tried, attempts[..i])
      requires logAfter == logBefore + LogFor(c, attempts[i])
      ensures callsAfter == calls0 + PostsFor(tried + [c], attempts[..i + 1])
      ensures logAfter == log0 + LogsFor(tried + [c], attempts[..i + 1])
    {
      PostsForSnoc(tried, attempts, c, i);
      LogsForSnoc(tried, attempts, c, i);
    }

    /** The countdown after a successful send: one tick per second for
        `interval` seconds, leaving as soon as `isRunning` reads false.
        `running(t)` is the value of the flag at tick `t`; the result is the
        number of seconds slept. */
    static method Countdown(interval: nat, running: nat -> bool) returns (slept: nat)
      ensures slept <= interval
      ensures forall t :: 0 <= t < slept ==> running(t)
      ensures slept < interval ==> !running(slept)
    {
      slept := 0;
      while slept < interval
        invariant slept <= interval
        invariant forall t :: 0 <= t < slept ==> running(t)
      {
        if !running(slept) {
          return;
        }
        slept := slept + 1;
      }
    }
  }
}
