/**
 * render-dashboard.php: `RenderAutoMessenger`, which sends the configured
 * messages in rotation to a list of Facebook ids through the Graph API.
 *
 * The configuration `loadConfiguration` reads from the environment and from
 * files is given to the constructor; each curl exchange is an `HttpReply`
 * input; requests, log lines and `usleep` pauses are recorded in fields.
 */
module RenderDashboard {
  import opened Basics
  import opened Text
  import Rotation

  const DefaultMessage := "Hello from Render!"
  const TestMessage := "\U{1F9EA} Test message from Render.com"
  const NoUids := "No UIDs configured"

  // ------------------------------------------------------------ PHP strings

  /** PHP `empty($s)` for a string: true for "" and for "0". */
  predicate PhpEmpty(s: string) {
    s == "" || s == "0"
  }

  /** PHP truthiness of a string, as `?:` tests it. */
  predicate PhpTruthy(s: string) {
    !PhpEmpty(s)
  }

  /** The whitespace PHP skips before a numeric string: " \t\n\r\v\f". */
  predicate IsNumericSpace(c: char) {
    c == ' ' || c == '\t' || c == '\n' || c == '\r' || c == '\U{0B}' || c == '\U{0C}'
  }

  /** The longest prefix made of ASCII digits. */
  function LeadingDigits(s: string): (r: string)
    ensures StartsWith(s, r)
    ensures forall i :: 0 <= i < |r| ==> IsAsciiDigit(r[i])
    ensures |r| < |s| ==> !IsAsciiDigit(s[|r|])
    decreases |s|
  {
    if s != [] && IsAsciiDigit(s[0]) then [s[0]] + LeadingDigits(s[1..]) else []
  }

  /** PHP `intval` of a string: leading whitespace, an optional sign, then
      the leading decimal digits; 0 when there are none. */
  function IntVal(s: string): (r: int)
    ensures (forall i :: 0 <= i < |s| ==> !IsAsciiDigit(s[i])) ==> r == 0
    ensures r < 0 ==> '-' in s
  {
    var t := TrimStart(s, IsNumericSpace);
    TrimStartSuffix(s, IsNumericSpace);
    if t != [] && (t[0] == '-' || t[0] == '+') then
      var n: int := DigitsToNat(LeadingDigits(t[1..]));
      if t[0] == '-' then -n else n
    else DigitsToNat(LeadingDigits(t))
  }

  /** Digits are read up to their end. */
  lemma {:induction false} LeadingDigitsOfDigits(d: string, rest: string)
    requires forall i :: 0 <= i < |d| ==> IsAsciiDigit(d[i])
    requires rest == [] || !IsAsciiDigit(rest[0])
    ensures LeadingDigits(d + rest) == d
    decreases |d|
  {
    if d != [] {
      assert (d + rest)[1..] == d[1..] + rest;
      LeadingDigitsOfDigits(d[1..], rest);
    }
  }

  /** `intval` reads back a rendered number, whatever non-digits follow it. */
  lemma IntValOfRendered(n: nat, rest: string)
    requires rest == [] || !IsAsciiDigit(rest[0])
    ensures IntVal(NatToString(n) + rest) == n
  {
    var d := NatToString(n);
    var s := d + rest;
    assert s[0] == d[0];
    assert !IsNumericSpace(s[0]) && s[0] != '-' && s[0] != '+';
    TrimStartSuffix(s, IsNumericSpace);
    LeadingDigitsOfDigits(d, rest);
    DigitsRoundTrip(n);
  }

  /** `intval` reads back a rendered negative number. */
  lemma IntValOfRenderedNegative(n: nat, rest: string)
    requires rest == [] || !IsAsciiDigit(rest[0])
    ensures IntVal("-" + NatToString(n) + rest) == -(n as int)
  {
    var d := NatToString(n);
    var s := "-" + d + rest;
    assert s[0] == '-' && s[1..] == d + rest;
    TrimStartSuffix(s, IsNumericSpace);
    LeadingDigitsOfDigits(d, rest);
    DigitsRoundTrip(n);
  }

  // ------------------------------------------------------------- the wire

  /** What curl reports for one request: the HTTP code (0 when no response
      arrived), `curl_error` ("" when none), and the Graph API's
      `error.message` when the response body carries one. */
  datatype HttpReply = HttpReply(httpCode: nat, curlError: string, apiError: Option<string>)

  /** The array `sendMessage` returns (the decoded response reduced to its
      error message). */
  datatype SendResult = SendResult(success: bool, httpCode: nat, error: Option<string>, responseError: Option<string>)

  /** The error `sendMessage` reports: curl's error when it is truthy,
      otherwise "HTTP" and the status code when that is not 200, otherwise
      none. */
  function SendError(reply: HttpReply): (r: Option<string>)
    ensures PhpTruthy(reply.curlError) ==> r == Some(reply.curlError)
    ensures !PhpTruthy(reply.curlError) && reply.httpCode != 200 ==>
              r.Some? && StartsWith(r.value, "HTTP ") && r.value[5..] == NatToString(reply.httpCode)
    ensures r.None? <==> reply.httpCode == 200 && !PhpTruthy(reply.curlError)
  {
    if PhpTruthy(reply.curlError) then Some(reply.curlError)
    else if reply.httpCode != 200 then Some("HTTP " + NatToString(reply.httpCode))
    else None
  }

  /** One POST to /me/messages. */
  datatype Request = Request(uid: string, message: string, token: string)

  /** The line `sendMessage` logs (the timestamp left out). */
  function SendLog(uid: string, success: bool): string {
    "Message to " + uid + ": " + (if success then "SUCCESS" else "FAILED")
  }

  /** An element of the array `runBatch` returns (the timestamp left out). */
  datatype Entry = Entry(uid: string, message: string, success: bool, error: Option<string>)

  /** The error a batch entry carries: the send error when there is one,
      otherwise the message of the API's error object, if any. */
  function EntryError(reply: HttpReply): (r: Option<string>)
    ensures SendError(reply).Some? ==> r == SendError(reply)
    ensures SendError(reply).None? ==> r == reply.apiError
  {
    if SendError(reply).Some? then SendError(reply) else reply.apiError
  }

  // ----------------------------------------------------------- the batch

  /** The uids `runBatch` sends to, in list order: trimmed, with the
      `empty` ones dropped. */
  function Targets(uids: seq<string>): (r: seq<string>)
    ensures |r| <= |uids|
    ensures forall j :: 0 <= j < |r| ==> !PhpEmpty(r[j])
    decreases |uids|
  {
    if uids == [] then []
    else
      var u := PhpTrim(uids[|uids| - 1]);
      Targets(uids[..|uids| - 1]) + (if PhpEmpty(u) then [] else [u])
  }

  lemma {:induction false} TargetsAppend(a: seq<string>, b: seq<string>)
    ensures Targets(a + b) == Targets(a) + Targets(b)
    decreases |b|
  {
    if b == [] {
      assert a + b == a;
    } else {
      var b' := b[..|b| - 1];
      assert (a + b)[..|a + b| - 1] == a + b';
      assert (a + b)[|a + b| - 1] == b[|b| - 1];
      TargetsAppend(a, b');
    }
  }

  /** Looking at one more uid adds it, trimmed, unless it is `empty`. */
  lemma TargetsStep(uids: seq<string>, u: nat)
    requires u < |uids|
    ensures PhpEmpty(PhpTrim(uids[u])) ==> Targets(uids[..u + 1]) == Targets(uids[..u])
    ensures !PhpEmpty(PhpTrim(uids[u])) ==> Targets(uids[..u + 1]) == Targets(uids[..u]) + [PhpTrim(uids[u])]
  {
    assert uids[..u + 1][..u] == uids[..u];
  }

  /** The targets of a prefix of the uids are a prefix of the targets. */
  lemma TargetsPrefix(uids: seq<string>, u: nat)
    requires u <= |uids|
    ensures var p := Targets(uids[..u]);
      |p| <= |Targets(uids)| && Targets(uids)[..|p|] == p
  {
    assert uids == uids[..u] + uids[u..];
    TargetsAppend(uids[..u], uids[u..]);
  }

  /** The number of sends `$count` allows: none when it is not positive. */
  function Cap(count: int): nat {
    if count < 0 then 0 else count
  }

  /** The uids one batch sends to: the first `$count` targets. */
  function BatchTargets(uids: seq<string>, count: int): (r: seq<string>)
    ensures |r| <= Cap(count) && |r| <= |Targets(uids)|
    ensures |r| == Cap(count) || r == Targets(uids)
    ensures r == Targets(uids)[..|r|]
  {
    var t := Targets(uids);
    if |t| <= Cap(count) then t else t[..Cap(count)]
  }

  /** `runBatch`'s loop ends having sent to exactly the batch: either every
      uid was looked at, or the count was reached. */
  lemma BatchEnd(uids: seq<string>, count: int, u: nat, sent: seq<string>)
    requires u <= |uids| && sent == Targets(uids[..u]) && |sent| <= Cap(count)
    requires u == |uids| || |sent| >= count
    ensures sent == BatchTargets(uids, count)
  {
    TargetsPrefix(uids, u);
    assert uids[..|uids|] == uids;
  }

  /** The message `getNextMessage` returns on the `j`-th call after the
      cursor stood at `start`. */
  function MessageAt(messages: seq<string>, start: nat, j: nat): string {
    if messages == [] then DefaultMessage else messages[(start + j) % |messages|]
  }

  /** Where the cursor stands after `k` calls of `getNextMessage`. */
  function IndexAfter(messages: seq<string>, start: nat, k: nat): nat {
    if messages == [] then start else (start + k) % |messages|
  }

  /** Consecutive sends of a batch carry consecutive messages of the list,
      wrapping around after the last one. */
  lemma NextMessageFollows(messages: seq<string>, start: nat, j: nat)
    requires messages != []
    ensures IndexAfter(messages, start, j + 1) == Rotation.Next(IndexAfter(messages, start, j), |messages|)
    ensures MessageAt(messages, start, j) == messages[IndexAfter(messages, start, j)]
  {
    Rotation.ModSucc(start + j, |messages|);
  }

  /** The entries for the uids sent to, the `j`-th send getting the `j`-th reply. */
  function Entries(messages: seq<string>, start: nat, replies: nat -> HttpReply, sent: seq<string>): (r: seq<Entry>)
    ensures |r| == |sent|
  {
    seq(|sent|, j requires 0 <= j < |sent| =>
      Entry(sent[j], MessageAt(messages, start, j), replies(j).httpCode == 200, EntryError(replies(j))))
  }

  function Requests(token: string, messages: seq<string>, start: nat, sent: seq<string>): (r: seq<Request>)
    ensures |r| == |sent|
  {
    seq(|sent|, j requires 0 <= j < |sent| => Request(sent[j], MessageAt(messages, start, j), token))
  }

  function Logs(replies: nat -> HttpReply, sent: seq<string>): (r: seq<string>)
    ensures |r| == |sent|
  {
    seq(|sent|, j requires 0 <= j < |sent| => SendLog(sent[j], replies(j).httpCode == 200))
  }

  /** One more send extends the entries, requests and log lines by its own. */
  lemma BatchSnoc(token: string, messages: seq<string>, start: nat, replies: nat -> HttpReply,
                  sent: seq<string>, uid: string)
    ensures var k := |sent|;
      && Entries(messages, start, replies, sent + [uid]) == Entries(messages, start, replies, sent)
           + [Entry(uid, MessageAt(messages, start, k), replies(k).httpCode == 200, EntryError(replies(k)))]
      && Requests(token, messages, start, sent + [uid]) == Requests(token, messages, start, sent)
           + [Request(uid, MessageAt(messages, start, k), token)]
      && Logs(replies, sent + [uid]) == Logs(replies, sent) + [SendLog(uid, replies(k).httpCode == 200)]
  {
    var s := sent + [uid];
    assert forall j :: 0 <= j < |sent| ==> s[j] == sent[j];
  }

  lemma SnocAssoc<T>(a: seq<T>, b: seq<T>, x: T)
    ensures a + b + [x] == a + (b + [x])
  {
  }

  function Min(a: int, b: int): int {
    if a <= b then a else b
  }

  /** The `usleep` calls after the first `k` sends: one after a send whose
      new count is still below `min($count, count($this->uids))`. */
  function Pauses(delay: int, count: int, uidCount: nat, k: nat): (r: seq<int>)
    ensures forall j :: 0 <= j < |r| ==> r[j] == delay * 1000
    decreases k
  {
    if k == 0 then []
    else Pauses(delay, count, uidCount, k - 1) + (if k < Min(count, uidCount) then [delay * 1000] else [])
  }

  /** A batch that reaches `min($count, count($this->uids))` sends pauses
      between its sends and not after the last one; a shorter batch, one
      with empty uids, pauses after every send. */
  lemma {:induction false} PauseCount(delay: int, count: int, uidCount: nat, k: nat)
    requires k <= Min(count, uidCount)
    ensures |Pauses(delay, count, uidCount, k)| == (if k == Min(count, uidCount) && k > 0 then k - 1 else k)
    decreases k
  {
    if k > 0 {
      PauseCount(delay, count, uidCount, k - 1);
    }
  }

  /** What `testConnection` returns. */
  datatype TestResult = Refused(error: string) | Tried(result: SendResult)

  class RenderAutoMessenger {
    const token: string
    const uids: seq<string>
    const messages: seq<string>
    /** Milliseconds between sends. */
    const delay: int
    var currentIndex: nat
    var calls: seq<Request>
    var log: seq<string>
    /** The arguments of the `usleep` calls, in microseconds. */
    var sleeps: seq<int>

    /** The cursor stays on a message of the list. */
    ghost predicate Valid()
      reads this
    {
      if messages == [] then currentIndex == 0 else currentIndex < |messages|
    }

    /** `__construct`: the configuration as `loadConfiguration` found it, the
        delay setting being the raw `FB_DELAY` / time.txt text (seconds). */
    constructor (token: string, uids: seq<string>, messages: seq<string>, delaySetting: string)
      ensures this.token == token && this.uids == uids && this.messages == messages
      ensures delay == IntVal(delaySetting) * 1000
      ensures currentIndex == 0 && Valid()
      ensures calls == [] && log == [] && sleeps == []
    {
      this.token := token;
      this.uids := uids;
      this.messages := messages;
      delay := IntVal(delaySetting) * 1000;
      currentIndex := 0;
      calls, log, sleeps := [], [], [];
    }

    /** `sendMessage`: one request and one log line; success is exactly HTTP 200. */
    method SendMessage(uid: string, message: string, reply: HttpReply) returns (r: SendResult)
      modifies this`calls, this`log
      ensures r.success <==> reply.httpCode == 200
      ensures r.httpCode == reply.httpCode && r.error == SendError(reply) && r.responseError == reply.apiError
      ensures calls == old(calls) + [Request(uid, message, token)]
      ensures log == old(log) + [SendLog(uid, reply.httpCode == 200)]
    {
      calls := calls + [Request(uid, message, token)];
      log := log + [SendLog(uid, reply.httpCode == 200)];
      r := SendResult(reply.httpCode == 200, reply.httpCode, SendError(reply), reply.apiError);
    }

    /** `getNextMessage`: the message under the cursor, the cursor moving on
        modulo the list length; the default text for an empty list. */
    method GetNextMessage() returns (m: string)
      requires Valid()
      modifies this`currentIndex
      ensures Valid()
      ensures messages == [] ==> m == DefaultMessage && currentIndex == old(currentIndex)
      ensures messages != [] ==>
        m == messages[old(currentIndex)] && currentIndex == Rotation.Next(old(currentIndex), |messages|)
    {
      if messages == [] {
        return DefaultMessage;
      }
      m := messages[currentIndex];
      Rotation.NextIsModulo(currentIndex, |messages|);
      currentIndex := (currentIndex + 1) % |messages|;
    }

    /** `runBatch($count)`: sends to the first `$count` targets in list order,
        one entry per send, `replies(j)` being curl's answer to the `j`-th. */
    method RunBatch(count: int, replies: nat -> HttpReply) returns (results: seq<Entry>)
      requires Valid()
      modifies this`currentIndex, this`calls, this`log, this`sleeps
      ensures Valid()
      ensures var sent := BatchTargets(uids, count);
        && results == Entries(messages, old(currentIndex), replies, sent)
        && currentIndex == IndexAfter(messages, old(currentIndex), |sent|)
        && calls == old(calls) + Requests(token, messages, old(currentIndex), sent)
        && log == old(log) + Logs(replies, sent)
        && sleeps == old(sleeps) + Pauses(delay, count, |uids|, |sent|)
    {
      results := [];
      var sentCount: nat := 0;
      ghost var sent: seq<string> := [];
      ghost var start, calls0, log0, sleeps0 := currentIndex, calls, log, sleeps;
      if messages != [] {
        Rotation.ModUnique(start, |messages|, 0, start);
      }
      var u := 0;
      while u < |uids|
        invariant Scanned(uids, count, u, sent) && sentCount == |sent|
        invariant Recorded(count, replies, results, sent, start, calls0, log0, sleeps0)
      {
        if sentCount >= count {
          break;
        }
        ScanStep(uids, count, u, sent);
        var uid := PhpTrim(uids[u]);
        if !PhpEmpty(uid) {
          results := SendStep(count, replies, uid, sentCount, results, sent, start, calls0, log0, sleeps0);
          sent := sent + [uid];
          sentCount := sentCount + 1;
        }
        u := u + 1;
      }
      BatchEnd(uids, count, u, sent);
    }

    /** `runBatch` has looked at the first `u` uids and sent to `sent`. */
    static ghost predicate Scanned(uids: seq<string>, count: int, u: nat, sent: seq<string>) {
      u <= |uids| && sent == Targets(uids[..u]) && |sent| <= Cap(count)
    }

    /** One more uid below the count keeps the scan within the cap. */
    static lemma ScanStep(uids: seq<string>, count: int, u: nat, sent: seq<string>)
      requires Scanned(uids, count, u, sent) && u < |uids| && |sent| < count
      ensures var t := PhpTrim(uids[u]);
        && (PhpEmpty(t) ==> Scanned(uids, count, u + 1, sent))
        && (!PhpEmpty(t) ==> Scanned(uids, count, u + 1, sent + [t]))
    {
      TargetsStep(uids, u);
    }

    /** What `runBatch` has done once it has sent to `sent`: the cursor
        moved on once per send, and one entry, request and log line per
        send, with the pauses so far. */
    ghost predicate Recorded(count: int, replies: nat -> HttpReply, results: seq<Entry>, sent: seq<string>,
                             start: nat, calls0: seq<Request>, log0: seq<string>, sleeps0: seq<int>)
      reads this
    {
      && Valid()
      && (if messages == [] then start == 0 else start < |messages|)
      && results == Entries(messages, start, replies, sent)
      && currentIndex == IndexAfter(messages, start, |sent|)
      && calls == calls0 + Requests(token, messages, start, sent)
      && log == log0 + Logs(replies, sent)
      && sleeps == sleeps0 + Pauses(delay, count, |uids|, |sent|)
    }

    /** One send of `runBatch`: the next message to `uid`, its entry, and a
        pause while the count is below `min($count, count($this->uids))`. */
    method SendStep(count: int, replies: nat -> HttpReply, uid: string, k: nat, results: seq<Entry>,
                    ghost sent: seq<string>, ghost start: nat,
                    ghost calls0: seq<Request>, ghost log0: seq<string>, ghost sleeps0: seq<int>)
      returns (results': seq<Entry>)
      requires k == |sent| && Recorded(count, replies, results, sent, start, calls0, log0, sleeps0)
      modifies this`currentIndex, this`calls, this`log, this`sleeps
      ensures Recorded(count, replies, results', sent + [uid], start, calls0, log0, sleeps0)
    {
      var entry := SendNext(uid, replies(k), start, k);
      BatchSnoc(token, messages, start, replies, sent, uid);
      SnocAssoc(calls0, Requests(token, messages, start, sent), calls[|calls| - 1]);
      SnocAssoc(log0, Logs(replies, sent), log[|log| - 1]);
      results' := results + [entry];
      if k + 1 < Min(count, |uids|) {
        SnocAssoc(sleeps0, Pauses(delay, count, |uids|, k), delay * 1000);
        sleeps := sleeps + [delay * 1000];
      }
    }

    /** The send part of one `runBatch` iteration: the `k`-th message since
        the cursor stood at `start` goes to `uid`. */
    method SendNext(uid: string, reply: HttpReply, ghost start: nat, ghost k: nat) returns (entry: Entry)
      requires Valid() && (if messages == [] then start == 0 else start < |messages|)
      requires currentIndex == IndexAfter(messages, start, k)
      modifies this`currentIndex, this`calls, this`log
      ensures Valid() && currentIndex == IndexAfter(messages, start, k + 1)
      ensures entry == Entry(uid, MessageAt(messages, start, k), reply.httpCode == 200, EntryError(reply))
      ensures calls == old(calls) + [Request(uid, MessageAt(messages, start, k), token)]
      ensures log == old(log) + [SendLog(uid, reply.httpCode == 200)]
    {
      if messages != [] {
        NextMessageFollows(messages, start, k);
      }
      var message := GetNextMessage();
      var result := SendMessage(uid, message, reply);
      entry := Entry(uid, message, result.success, EntryError(reply));
    }

    /** `testConnection`: refuses without uids; otherwise sends the test
        message to the first uid as it is, untrimmed. */
    method TestConnection(reply: HttpReply) returns (r: TestResult)
      modifies this`calls, this`log
      ensures uids == [] ==> r == Refused(NoUids) && calls == old(calls) && log == old(log)
      ensures uids != [] ==>
        && r == Tried(SendResult(reply.httpCode == 200, reply.httpCode, SendError(reply), reply.apiError))
        && calls == old(calls) + [Request(uids[0], TestMessage, token)]
        && log == old(log) + [SendLog(uids[0], reply.httpCode == 200)]
    {
      if uids == [] {
        return Refused(NoUids);
      }
      var result := SendMessage(uids[0], TestMessage, reply);
      return Tried(result);
    }
  }
}
