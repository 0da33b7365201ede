/**
 * receiver.py: `E2EEReceiver`, which decrypts messages pasted by hand, and
 * the `monitor_messages` input loop around it.
 *
 * The lines typed at the prompt are an input sequence; what the loop prints
 * is returned as `shown`; the calls of `log_decryption` are recorded in
 * `log`.
 */
module Receiver {
  import opened Basics
  import opened Text
  import Crypto

  const StartMarker := "ENCRYPTED_MESSAGE_START"
  const Cross := "\U{274C}"
  const NotAvailable := "\U{274C} Decryption not available"
  const ExcerptLength: nat := 50

  /** The first line at or after `k` that carries the start marker and has
      a line after it. */
  function FirstMarkerFrom(lines: seq<string>, k: nat): (r: Option<nat>)
    ensures r.Some? ==>
      && k <= r.value && r.value + 1 < |lines| && Contains(lines[r.value], StartMarker)
      && forall j :: k <= j < r.value ==> !Contains(lines[j], StartMarker)
    ensures r.None? ==> forall j :: k <= j && j + 1 < |lines| ==> !Contains(lines[j], StartMarker)
    decreases |lines| - k
  {
    if k + 1 >= |lines| then None
    else if Contains(lines[k], StartMarker) then Some(k)
    else FirstMarkerFrom(lines, k + 1)
  }

  /** The text handed to Fernet: the stripped line after the first marker
      line, or the whole message when no marker line has a successor. */
  function Candidate(message: string): string {
    if Contains(message, StartMarker) then
      var lines := Split(message, '\n');
      match FirstMarkerFrom(lines, 0)
      case Some(i) => Strip(lines[i + 1])
      case None => message
    else message
  }

  /** `decrypt_message`: never raises; without a key it refuses, and a
      failed decryption is reported as text. */
  function Decrypted(fernet: Option<Crypto.Key>, message: string, cipher: Crypto.Cipher): (r: string)
    ensures fernet.None? ==> r == NotAvailable
    ensures fernet.Some? ==>
      match cipher.open(fernet.value, Candidate(message))
      case Ok(m) => r == m
      case Err(e) => r == Crypto.DecryptFailedPrefix + e && StartsWith(r, Cross)
  {
    if fernet.None? then NotAvailable
    else Crypto.DecryptMessage(fernet, Candidate(message), cipher)
  }

  /** The search finds a marker line with a successor when no earlier line
      carries the marker. */
  lemma {:induction false} FirstMarkerIs(lines: seq<string>, k: nat, i: nat)
    requires k <= i && i + 1 < |lines| && Contains(lines[i], StartMarker)
    requires forall j :: k <= j < i ==> !Contains(lines[j], StartMarker)
    ensures FirstMarkerFrom(lines, k) == Some(i)
    decreases i - k
  {
    if k < i {
      FirstMarkerIs(lines, k + 1, i);
    }
  }

  /** The search finds nothing when no line with a successor carries the marker. */
  lemma {:induction false} NoMarkerLine(lines: seq<string>, k: nat)
    requires forall j :: k <= j && j + 1 < |lines| ==> !Contains(lines[j], StartMarker)
    ensures FirstMarkerFrom(lines, k).None?
    decreases |lines| - k
  {
    if k + 1 < |lines| {
      NoMarkerLine(lines, k + 1);
    }
  }

  /** A marker line followed by a line selects that following line, the
      first such marker line winning. */
  lemma MarkerSelectsNextLine(message: string, i: nat)
    requires var lines := Split(message, '\n');
      && i + 1 < |lines| && Contains(lines[i], StartMarker)
      && forall j :: 0 <= j < i ==> !Contains(lines[j], StartMarker)
    ensures Candidate(message) == Strip(Split(message, '\n')[i + 1])
  {
    var lines := Split(message, '\n');
    MarkerLineInMessage(message, lines, i);
    FirstMarkerIs(lines, 0, i);
  }

  /** A line that contains the marker makes the whole message contain it. */
  lemma MarkerLineInMessage(message: string, lines: seq<string>, i: nat)
    requires lines == Split(message, '\n') && i < |lines| && Contains(lines[i], StartMarker)
    ensures Contains(message, StartMarker)
  {
    JoinSplit(message, '\n');
    JoinHasPart(lines, '\n', i);
    ContainsWithin(message, lines[i], StartMarker);
  }

  /** Without a marker line that has a successor, the message is decrypted
      as it is. */
  lemma OtherwiseDirect(message: string)
    requires forall j :: 0 <= j && j + 1 < |Split(message, '\n')| ==> !Contains(Split(message, '\n')[j], StartMarker)
    ensures Candidate(message) == message
  {
    NoMarkerLine(Split(message, '\n'), 0);
  }

  /** A single line, a bare ciphertext in particular, is decrypted as it is. */
  lemma OneLineIsDirect(message: string)
    requires '\n' !in message
    ensures Candidate(message) == message
  {
    SplitSingle(message, '\n');
  }

  /** Pasting just the ciphertext gives back the plaintext. */
  lemma BareCiphertextRoundTrip(key: Crypto.Key, plaintext: string, cipher: Crypto.Cipher, nonce: Crypto.Bytes)
    requires Crypto.Sound(cipher)
    ensures Decrypted(Some(key), cipher.seal(key, nonce, plaintext), cipher) == plaintext
  {
    var c := cipher.seal(key, nonce, plaintext);
    assert Crypto.IsBase64Text(c) && cipher.open(key, c) == Ok(plaintext);
    Crypto.Base64OneStrippedLine(c);
    OneLineIsDirect(c);
  }

  /** A message whose first line carries the marker selects its second line. */
  lemma MarkedSecondLine(head: string, c: string, tail: seq<string>)
    requires Contains(head, StartMarker) && '\n' !in head && '\n' !in c
    requires forall j :: 0 <= j < |tail| ==> '\n' !in tail[j]
    ensures Candidate(Join([head, c] + tail, '\n')) == Strip(c)
  {
    var parts := [head, c] + tail;
    forall j | 0 <= j < |parts| ensures '\n' !in parts[j] {
      if j >= 2 {
        assert parts[j] == tail[j - 2];
      }
    }
    SplitJoin(parts, '\n');
    FirstLinesMarked(Join(parts, '\n'), head, c);
  }

  /** A marker on the first line selects the second line. */
  lemma FirstLinesMarked(m: string, head: string, c: string)
    requires |Split(m, '\n')| >= 2 && Split(m, '\n')[0] == head && Split(m, '\n')[1] == c
    requires Contains(head, StartMarker)
    ensures Candidate(m) == Strip(c)
  {
    MarkerSelectsNextLine(m, 0);
  }

  /** A message whose first line carries the marker and whose second line is
      the ciphertext gives back the plaintext, whatever lines follow. */
  lemma MarkedCiphertextRoundTrip(key: Crypto.Key, plaintext: string, cipher: Crypto.Cipher, nonce: Crypto.Bytes,
                                  head: string, tail: seq<string>)
    requires Crypto.Sound(cipher) && Contains(head, StartMarker)
    requires '\n' !in head && forall j :: 0 <= j < |tail| ==> '\n' !in tail[j]
    ensures var c := cipher.seal(key, nonce, plaintext);
      Decrypted(Some(key), Join([head, c] + tail, '\n'), cipher) == plaintext
  {
    var c := cipher.seal(key, nonce, plaintext);
    assert Crypto.IsBase64Text(c) && cipher.open(key, c) == Ok(plaintext);
    Crypto.Base64OneStrippedLine(c);
    MarkedSecondLine(head, c, tail);
  }

  /** The words that end the input loop, in any letter case: exit, quit and stop. */
  predicate IsStopWord(m: string) {
    Lower(m) == "exit" || Lower(m) == "quit" || Lower(m) == "stop"
  }

  /** The stop words are compared without regard to case. */
  lemma StopWordIgnoresCase(m: string)
    ensures IsStopWord(Lower(m)) <==> IsStopWord(m)
  {
    LowerIdempotent(m);
  }

  /** The position of the first stop word, or the length when there is none. */
  function StopIndex(inputs: seq<string>): (r: nat)
    ensures r <= |inputs|
    ensures forall j :: 0 <= j < r ==> !IsStopWord(Strip(inputs[j]))
    ensures r < |inputs| ==> IsStopWord(Strip(inputs[r]))
    decreases |inputs|
  {
    if inputs == [] then 0
    else if IsStopWord(Strip(inputs[0])) then 0
    else 1 + StopIndex(inputs[1..])
  }

  /** A line before the stop word that is no stop word itself is not the last one handled. */
  lemma StopIndexStep(inputs: seq<string>, i: nat)
    requires i < |inputs| && i <= StopIndex(inputs) && !IsStopWord(Strip(inputs[i]))
    ensures i + 1 <= StopIndex(inputs)
  {
  }

  /** A call of `log_decryption(encrypted, decrypted)`. The line it appends
      to logs/decryption_log.txt holds the timestamp and the decrypted text
      only; the excerpt it is given is not written. */
  datatype LogCall = LogCall(excerpt: string, decrypted: string)

  /** What the loop prints for each input before the stop word: nothing for
      a blank line, the decryption otherwise. */
  function Shown(fernet: Option<Crypto.Key>, cipher: Crypto.Cipher, inputs: seq<string>): (r: seq<string>)
    decreases |inputs|
  {
    if inputs == [] then []
    else
      var m := Strip(inputs[|inputs| - 1]);
      Shown(fernet, cipher, inputs[..|inputs| - 1]) + (if m == "" then [] else [Decrypted(fernet, m, cipher)])
  }

  /** The `log_decryption` calls for the inputs before the stop word: one for
      each decryption that does not start with the cross mark. */
  function Logged(fernet: Option<Crypto.Key>, cipher: Crypto.Cipher, inputs: seq<string>): (r: seq<LogCall>)
    decreases |inputs|
  {
    if inputs == [] then []
    else
      var m := Strip(inputs[|inputs| - 1]);
      var d := Decrypted(fernet, m, cipher);
      Logged(fernet, cipher, inputs[..|inputs| - 1])
      + (if m != "" && !StartsWith(d, Cross) then [LogCall(Truncate(m, ExcerptLength), d)] else [])
  }

  /** Handling one more line extends what is shown and what is logged by
      what that line contributes. */
  lemma RunSnoc(fernet: Option<Crypto.Key>, cipher: Crypto.Cipher, inputs: seq<string>, i: nat)
    requires i < |inputs|
    ensures var m := Strip(inputs[i]);
      var d := Decrypted(fernet, m, cipher);
      && Shown(fernet, cipher, inputs[..i + 1])
         == Shown(fernet, cipher, inputs[..i]) + (if m == "" then [] else [d])
      && Logged(fernet, cipher, inputs[..i + 1])
         == Logged(fernet, cipher, inputs[..i])
            + (if m != "" && !StartsWith(d, Cross) then [LogCall(Truncate(m, ExcerptLength), d)] else [])
  {
    assert inputs[..i + 1][..i] == inputs[..i];
    assert inputs[..i + 1][i] == inputs[i];
  }

  /** One decryption is shown per non-blank input, and the logged ones are
      among them: none starts with the cross mark and every excerpt is at
      most 50 characters plus "...". */
  lemma {:induction false} LoggedAreSuccesses(fernet: Option<Crypto.Key>, cipher: Crypto.Cipher, inputs: seq<string>)
    ensures |Logged(fernet, cipher, inputs)| <= |Shown(fernet, cipher, inputs)| <= |inputs|
    ensures var l := Logged(fernet, cipher, inputs);
      forall j :: 0 <= j < |l| ==> !StartsWith(l[j].decrypted, Cross) && |l[j].excerpt| <= ExcerptLength + 3
    decreases |inputs|
  {
    if inputs != [] {
      LoggedAreSuccesses(fernet, cipher, inputs[..|inputs| - 1]);
    }
  }

  /** Without a key nothing is ever logged: every decryption is the refusal. */
  lemma {:induction false} NothingLoggedWithoutKey(cipher: Crypto.Cipher, inputs: seq<string>)
    ensures Logged(None, cipher, inputs) == []
    decreases |inputs|
  {
    if inputs != [] {
      NothingLoggedWithoutKey(cipher, inputs[..|inputs| - 1]);
      var m := Strip(inputs[|inputs| - 1]);
      assert StartsWith(Decrypted(None, m, cipher), Cross);
    }
  }

  class E2EEReceiver {
    const fernet: Option<Crypto.Key>
    const cipher: Crypto.Cipher
    var log: seq<LogCall>

    /** `__init__`: the content of encryption_key.txt, if the file exists; an
        empty key leaves the receiver without Fernet. */
    constructor (keyFile: Option<Crypto.Key>, cipher: Crypto.Cipher)
      ensures fernet == (if keyFile.Some? && keyFile.value != [] then keyFile else None)
      ensures this.cipher == cipher && log == []
    {
      fernet := if keyFile.Some? && keyFile.value != [] then keyFile else None;
      this.cipher := cipher;
      log := [];
    }

    /** `decrypt_message`: scans the lines for the first marker line with a
        successor and returns at it. */
    method DecryptMessage(message: string) returns (r: string)
      ensures r == Decrypted(fernet, message, cipher)
    {
      if fernet.None? {
        return NotAvailable;
      }
      if Contains(message, StartMarker) {
        var lines := Split(message, '\n');
        var i := 0;
        while i < |lines|
          invariant 0 <= i <= |lines|
          invariant FirstMarkerFrom(lines, i) == FirstMarkerFrom(lines, 0)
        {
          if Contains(lines[i], StartMarker) && i + 1 < |lines| {
            var content := Strip(lines[i + 1]);
            return Crypto.DecryptMessage(fernet, content, cipher);
          }
          i := i + 1;
        }
      }
      return Crypto.DecryptMessage(fernet, message, cipher);
    }

    /** `monitor_messages` over the lines typed at the prompt. Without a key
        nothing is read. Otherwise the loop stops at the first stop word,
        having handled the `consumed` lines before it. */
    method MonitorMessages(inputs: seq<string>) returns (shown: seq<string>, consumed: nat)
      modifies this`log
      ensures fernet.None? ==> shown == [] && consumed == 0 && log == old(log)
      ensures fernet.Some? ==>
        && consumed == StopIndex(inputs)
        && shown == Shown(fernet, cipher, inputs[..consumed])
        && log == old(log) + Logged(fernet, cipher, inputs[..consumed])
    {
      shown, consumed := [], 0;
      if fernet.None? {
        return;
      }
      var i := 0;
      while i < |inputs|
        invariant MonitorState(inputs, i, shown, old(log))
      {
        if IsStopWord(Strip(inputs[i])) {
          break;
        }
        shown := MonitorStep(inputs, i, shown, old(log));
        i := i + 1;
      }
      consumed := i;
    }

    /** The loop of `monitor_messages` after the first `i` lines. */
    ghost predicate MonitorState(inputs: seq<string>, i: nat, shown: seq<string>, log0: seq<LogCall>)
      reads this
    {
      && i <= |inputs| && i <= StopIndex(inputs)
      && shown == Shown(fernet, cipher, inputs[..i])
      && log == log0 + Logged(fernet, cipher, inputs[..i])
    }

    /** One line that is no stop word: decrypted and shown unless blank, and
        logged unless the result starts with the cross mark. */
    method MonitorStep(inputs: seq<string>, i: nat, shown: seq<string>, ghost log0: seq<LogCall>)
      returns (shown': seq<string>)
      requires i < |inputs| && MonitorState(inputs, i, shown, log0) && !IsStopWord(Strip(inputs[i]))
      modifies this`log
      ensures MonitorState(inputs, i + 1, shown', log0)
    {
      var message := Strip(inputs[i]);
      RunSnoc(fernet, cipher, inputs, i);
      StopIndexStep(inputs, i);
      shown' := shown;
      if message != "" {
        var decrypted := DecryptMessage(message);
        shown' := shown + [decrypted];
        if !StartsWith(decrypted, Cross) {
          log := log + [LogCall(Truncate(message, ExcerptLength), decrypted)];
        }
      }
    }
  }
}
