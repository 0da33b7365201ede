# LOLX messenger bots: a Dafny model

LOLX is a set of bots that send rotating messages to Facebook Messenger users.
The bots share these pieces:

- an optionally Fernet-encrypted message list, read from text files;
- a cursor that walks the list in cyclic order;
- a framing of ciphertexts into a Facebook message text;
- a small e-mail/password account registry with per-user key derivation.

On top of these sit several drivers:

- a Graph API auto-sender (`main.py`, `userid_to_e2ee_messenger.py`, `e2ee_messenger.py`);
- a manual receiver that decrypts pasted messages (`receiver.py`);
- a PHP batch dispatcher for Render.com (`render-dashboard.php`);
- a browser bot that types messages into chats that look end-to-end encrypted and remembers who it has already written to (`messenger_e2ee_bot.py`).

The project models that bookkeeping and string handling and proves what the code promises about it. It is organised in modules:

- `Basics` holds Option and Result.
- `Text` holds the Python and PHP string operations the code uses (`str.strip`, `trim`, `in`, `lower`, `split`, line reading, truncation with "...", decimal rendering).
- `Crypto` covers Fernet, PBKDF2-HMAC-SHA256 (section 5.2 of RFC 8018) and url-safe base64 (section 5 of RFC 4648). They are function values, and the round trip the code relies on is the predicate `Crypto.Sound`.
- `Rotation` is the cyclic cursor, with closed forms over a run of outcomes.
- `FacebookMessenger` models `main.py`.
- `UserIdMessenger` models `userid_to_e2ee_messenger.py`.
- `E2EEApp` models `e2ee_messenger.py`: accounts, key setup, framing, extraction and the auto loop.
- `Receiver` models `receiver.py`.
- `RenderDashboard` models the `RenderAutoMessenger` class of `render-dashboard.php`.
- `MessengerBot` models `messenger_e2ee_bot.py`.

The outside world enters as inputs, and what objects do is recorded in fields:

- Inputs are the contents of files (`Option<string>`, `None` for a missing file), HTTP outcomes (`Attempt`, `HttpReply`, `TokenReply`, `ConversationReply`), and what a browser page shows (`ChatView`).
- Objects record what they do in sequence fields. `calls` holds the requests made, `log` the log lines written, `sleeps` the pauses, and `visited`/`delivered` the chats opened and the messages typed.
- The endless auto-send loops run over a finite sequence of attempts, as if interrupted after the last one.

## Model

| member | source | states |
|---|---|---|
| Crypto.GenerateEncryptionKey | e2ee_messenger.py:96-108 | a given salt is kept, a missing one is replaced by 16 random bytes; the key is the KDF of password and salt |
| Crypto.DecryptMessage | e2ee_messenger.py:149-158 | without a key the text comes back unchanged; otherwise the decrypted text, or "❌ Decryption failed: " followed by the library's error |
| Crypto.EncryptMessage | main.py:72-78 | without a Fernet instance the plaintext is returned unchanged |
| Crypto.EncryptDecryptRoundTrip | e2ee_messenger.py:141-158 | with a sound cipher, decrypting what was encrypted under the same key gives the plaintext back, and a ciphertext is base64 text |
| Crypto.Base64OneStrippedLine | e2ee_messenger.py:147 | a url-safe base64 token holds no newline and is unchanged by `strip()` |
| Rotation.Next | main.py:233-240 | the successor index stays below the list length, is 0 exactly after the last index, and is index + 1 otherwise |
| Rotation.NextIsModulo | e2ee_messenger.py:274 | moving on and resetting at the end is the same as `(i + 1) % len` |
| Rotation.AfterClosedForm | userid_to_e2ee_messenger.py:300-312 | after a run of send outcomes the cursor is the start plus the number of successes, modulo the list length |
| Rotation.ScheduleClosedForm | userid_to_e2ee_messenger.py:300-312 | the message tried at attempt j is the start plus the successes before j, modulo the list length |
| Rotation.FailureRetries | main.py:230-243 | after a failed attempt the next attempt retries the same message |
| Rotation.SuccessAdvances | main.py:230-243 | after a successful attempt the next attempt sends the following message in cyclic order |
| Rotation.FullCycle | main.py:233-240 | starting at 0, n successes send every message once in order and bring the cursor back to 0 |
| FacebookMessenger.LoadToken | main.py:37-52 | a token is loaded iff the file exists and its content, read in text mode (newlines translated) and stripped, is neither empty nor "YOUR_FACEBOOK_TOKEN_HERE"; a loaded token is stripped and not blank |
| FacebookMessenger.LoadUserId | main.py:91-103 | a user id is loaded iff the file exists and its content, read in text mode (newlines translated) and stripped, is neither empty nor "FACEBOOK_USER_ID_HERE" |
| FacebookMessenger.LoadSettingStable | main.py:41-48 | a stripped value without carriage returns that is neither empty nor the placeholder loads as itself |
| Text.ReadLines | main.py:105-113 | `load_messages` (and `read_messages`/`read_targets` of messenger_e2ee_bot.py): a missing file gives no lines; every line read is stripped and non-empty |
| Text.ReadLinesRoundTrip | main.py:108-110 | writing clean messages one per line and loading them gives the same list in file order |
| Text.ReadStrippedStable | main.py:41 | a stripped value without carriage returns is what `f.read().strip()` returns for a file holding it |
| FacebookMessenger.E2EEFacebookMessenger.constructor | main.py:12-25 | the loaders' results are stored, the cursor starts at 0 and the bot is running |
| FacebookMessenger.E2EEFacebookMessenger.SendEncryptedMessage | main.py:178-222 | without a target nothing is sent or logged; otherwise exactly one POST of the framed ciphertext, success iff delivered, and a SENT or ERROR log line |
| FacebookMessenger.E2EEFacebookMessenger.SendNextEncryptedMessage | main.py:224-243 | with no messages: False and nothing changes; on success the cursor moves to the next index (0 after the last, logging a restart); on failure it stays and the same message is retried; the cursor stays below the list length |
| FacebookMessenger.E2EEFacebookMessenger.StartAutoEncryptedSending | main.py:245-296 | it starts iff the token is valid, the target is present and the test message is delivered; the whole request record is stated: the token check alone when the token is bad or the target missing, then the test message, then one POST per attempt; the token check and the test message write no log line; when it runs, the count equals the successes, the cursor and each POSTed message follow the rotation schedule, and the log gains exactly the SENT, RESTART and ERROR lines of the attempts |
| FacebookMessenger.E2EEFacebookMessenger.SendLoop | main.py:267-296 | `message_count` counts only successful sends; the cursor and the messages tried follow the rotation schedule from the current index; each attempt adds its POST, and its log lines: SENT with the 1-based position, followed by RESTART after the last message, or ERROR with the failure detail |
| FacebookMessenger.E2EEFacebookMessenger.Countdown | main.py:282-289 | the countdown sleeps at most the interval, only while running, and stops early exactly at the first second the bot is no longer running |
| UserIdMessenger.LoadToken | userid_to_e2ee_messenger.py:28-41 | a token is loaded iff the file exists and its content, read in text mode (newlines translated) and stripped, starts with "EA" |
| UserIdMessenger.LoadUserId | userid_to_e2ee_messenger.py:43-56 | a user id is loaded iff the file exists and its stripped content is a non-empty string of digits |
| UserIdMessenger.LoadUserIdStable | userid_to_e2ee_messenger.py:46-50 | an all-digit id followed by whitespace loads as itself |
| UserIdMessenger.LoadMessages | userid_to_e2ee_messenger.py:58-74 | a missing file gives the five default messages; otherwise every message is stripped and non-empty |
| UserIdMessenger.ZFill | userid_to_e2ee_messenger.py:148 | Python's `zfill`: long strings come back as they are; short ones get exactly width characters, zeros inserted after a leading sign |
| UserIdMessenger.CreateE2EEThreadId | userid_to_e2ee_messenger.py:143-154 | the result never exceeds 17 characters; below 15 characters an all-digit id is zero-padded to 17 and ends with the id; from 15 on it is the 17-character prefix; lengths 15 and 16 come back unchanged; digits give digits |
| UserIdMessenger.ThreadIdFromResponse | userid_to_e2ee_messenger.py:125 | with a `message_id`, the thread id is its prefix up to the first '_' (free of '_', followed by '_' when shorter); without one, the user id |
| UserIdMessenger.GetE2EEThreadId | userid_to_e2ee_messenger.py:106-141 | on a 200 reply with a `message_id`, the normalised part of it before '_'; on any other reply or an exception, the normalised user id; never more than 17 characters |
| UserIdMessenger.ThreadIdDigits | userid_to_e2ee_messenger.py:106-154 | an all-digit user id, and an all-digit message-id prefix when the reply has one, give an all-digit thread id |
| UserIdMessenger.LogExcerpt | userid_to_e2ee_messenger.py:359 | the logged ciphertext is unchanged up to 100 characters, else its first 100 characters plus "..." |
| UserIdMessenger.UserIdToE2EEMessenger.constructor | userid_to_e2ee_messenger.py:10-16 | token, user id and messages are what `LoadToken`, `LoadUserId` and `LoadMessages` make of the files, the key is what `setup_encryption` returned, there is no thread id yet, and no request or log record has been made |
| UserIdMessenger.UserIdToE2EEMessenger.VerifySetup | userid_to_e2ee_messenger.py:156-187 | it fails on a missing token, user id, message list or key, checked in that order and before any request; an invalid token fails after one token check; success sets the thread id |
| UserIdMessenger.UserIdToE2EEMessenger.SendE2EEMessage | userid_to_e2ee_messenger.py:204-278 | without a thread id nothing is sent; otherwise one POST of the encrypted envelope, success iff delivered, and one log record |
| UserIdMessenger.UserIdToE2EEMessenger.SendTestMessage | userid_to_e2ee_messenger.py:327-336 | the setup is ready iff token, user id, messages and key are present and the token is valid; a refused setup keeps thread id and log and makes only the token check, if it got that far; a ready one makes the token check, the initialising message and one test envelope to the new thread id, whose text ends in the clock read for it, and logs that one send |
| UserIdMessenger.UserIdToE2EEMessenger.StartAutoE2EEMessaging | userid_to_e2ee_messenger.py:280-325 | a refused setup keeps thread id and log, sends nothing and makes only the token check, if it got that far; a ready one counts the successes, tries the messages on the rotation schedule from index 0, POSTs one envelope to the thread per attempt and logs one record per attempt |
| E2EEApp.Register | e2ee_messenger.py:41-55 | an existing e-mail gives (False, "User already exists") and unchanged users; otherwise "Registration successful" |
| E2EEApp.RegisterAddsOne | e2ee_messenger.py:48-55 | a registration adds exactly the new account with the password's hash and no last login; the other accounts are unchanged |
| E2EEApp.Login | e2ee_messenger.py:57-73 | "User not found" for an unknown e-mail, "Invalid password" on a hash mismatch, unchanged users on failure; success iff the account exists with that hash |
| E2EEApp.LoginTouchesOnlyLastLogin | e2ee_messenger.py:69-73 | a successful login changes only that account's last login |
| E2EEApp.RegisterThenLogin | e2ee_messenger.py:24-73 | registering and then logging in with the same password succeeds |
| E2EEApp.E2EELoginSystem.constructor | e2ee_messenger.py:14-16 | the accounts are those data/users.json holds |
| E2EEApp.E2EELoginSystem.RegisterUser | e2ee_messenger.py:41-55 | the users map and the verdict are those of `Register` on the old map |
| E2EEApp.E2EELoginSystem.LoginUser | e2ee_messenger.py:57-73 | the users map and the verdict are those of `Login` on the old map |
| E2EEApp.SetupEncryption | e2ee_messenger.py:110-139 | with both files present it succeeds iff the KDF of the password and the stored salt equals the stored key, and on mismatch it reports "Invalid password for decryption" and sets no key; otherwise it stores a new key and salt and reports "New encryption key created" |
| E2EEApp.SetupTwiceSucceeds | e2ee_messenger.py:110-139 | after a successful setup, setting up again with the same password succeeds with the stored key and leaves the store unchanged |
| E2EEApp.E2EEMessenger.constructor | e2ee_messenger.py:76-87 | no token, target, messages or key in use; the key store is what keys/ holds; no request and no log line yet |
| E2EEApp.E2EEMessenger.SetupUserEncryption | e2ee_messenger.py:110-139 | the key store, the key in use and the verdict are those of `SetupEncryption` |
| E2EEApp.FirstPayloadFrom | e2ee_messenger.py:297-298 | the first line at or after k that is not blank and carries none of the marker strings |
| E2EEApp.ExtractCiphertext | e2ee_messenger.py:294-304 | the whole text when it lacks the marker or has no payload line; otherwise its first payload line, stripped |
| E2EEApp.ReceivedResult | e2ee_messenger.py:285-304 | blank input gives (False, "No message provided"); anything else gives True |
| E2EEApp.InputLine | e2ee_messenger.py:288 | `input()` hands on one line: the first line typed, without its newline |
| E2EEApp.FrameLines | e2ee_messenger.py:214 | splitting a frame at newlines gives back its lines |
| E2EEApp.FrameExtractRoundTrip | e2ee_messenger.py:214 | extracting from the frame of a one-line, marker-free ciphertext gives exactly that ciphertext |
| E2EEApp.Base64Extractable | e2ee_messenger.py:147 | every non-empty url-safe base64 token can be extracted again |
| E2EEApp.SendReceiveRoundTrip | e2ee_messenger.py:205-304 | were the whole pasted frame read, extracting and decrypting it would give the original plaintext back (the intended behaviour; see Findings) |
| E2EEApp.PastedFrameDecryptsHeader | e2ee_messenger.py:288-304 | pasting a frame at the prompt hands over only its header line, which is decrypted as it is, and the header is no base64 token |
| E2EEApp.CiphertextLineRoundTrip | e2ee_messenger.py:288-304 | pasting just the ciphertext line, whatever follows it, decrypts to the original plaintext |
| E2EEApp.InputSkipsScan | e2ee_messenger.py:288-304 | whatever is typed, the one line `input()` reads is decrypted as it is: the scan for a payload line never applies |
| E2EEApp.Prefix | e2ee_messenger.py:234 | `s[:n]` is a prefix of s of length min(n, |s|) |
| E2EEApp.E2EEMessenger.LoadFacebookConfig | e2ee_messenger.py:171-184 | the files are read in order in text mode; a missing file stops loading there with failure; with all three present the token and target (newlines translated, stripped) and the messages are loaded |
| E2EEApp.E2EEMessenger.VerifyFacebookToken | e2ee_messenger.py:186-203 | without a token: (False, "Token not loaded") and no request; otherwise one token request whose reply decides the result |
| E2EEApp.E2EEMessenger.SendEncryptedMessage | e2ee_messenger.py:205-244 | without token or target: (False, "Configuration missing") and nothing sent; otherwise one POST of the frame, success iff delivered, and one log line |
| E2EEApp.E2EEMessenger.SendTestMessage | e2ee_messenger.py:246-249 | succeeds iff configured and delivered; when not configured: "Configuration missing", nothing sent and nothing logged; otherwise one POST of the framed test text, which ends in its own clock reading, its activity line, and the result text of the send: "Message sent successfully", the API error text, or "Network error: " and the error |
| E2EEApp.E2EEMessenger.StartAutoMessaging | e2ee_messenger.py:251-283 | with no messages: "No messages loaded" and nothing sent; otherwise the count equals the successes and the local cursor starts at 0 and moves on only after a success; when configured, one POST and one activity line per attempt; when not, no request and no log line |
| E2EEApp.E2EEMessenger.DecryptReceivedMessage | e2ee_messenger.py:285-304 | the line scan over the one line `input()` read returns what `ReceivedResult` states for that line |
| Receiver.FirstMarkerFrom | receiver.py:33-34 | the first line at or after k that holds `ENCRYPTED_MESSAGE_START` and has a next line |
| Receiver.E2EEReceiver.constructor | receiver.py:7-9 | the key is the content of encryption_key.txt when that file exists and is not empty, otherwise there is no Fernet; the log starts empty |
| Receiver.Decrypted | receiver.py:24-44 | without a key: "❌ Decryption not available"; otherwise the decryption of the candidate, or "❌ Decryption failed: " followed by the error |
| Receiver.MarkerSelectsNextLine | receiver.py:31-37 | if line i is the first marker line with a next line, the candidate is line i+1 stripped |
| Receiver.OtherwiseDirect | receiver.py:34-41 | when no marker line has a next line, the whole input is decrypted directly |
| Receiver.OneLineIsDirect | receiver.py:39-41 | a one-line input is decrypted directly |
| Receiver.MarkedSecondLine | receiver.py:31-37 | the candidate of a marker header followed by a line is that line stripped |
| Receiver.BareCiphertextRoundTrip | receiver.py:39-41 | a bare ciphertext decrypts to its plaintext |
| Receiver.MarkedCiphertextRoundTrip | receiver.py:31-37 | a ciphertext framed under an `ENCRYPTED_MESSAGE_START` header decrypts to its plaintext when `decrypt_message` is given the whole message; `monitor_messages` reads one line per prompt and so never hands it one |
| Receiver.StopWordIgnoresCase | receiver.py:75 | "exit", "quit" and "stop" are recognised in any case |
| Receiver.StopIndex | receiver.py:72-76 | the loop reads up to the first stripped input that is a stop word, and no earlier input is one |
| Receiver.LoggedAreSuccesses | receiver.py:78-86 | no more entries are logged than shown, nor shown than read; no logged result starts with "❌", and each logged excerpt has at most 50 characters plus "..." |
| Receiver.NothingLoggedWithoutKey | receiver.py:26-27 | without a key nothing is ever logged |
| Receiver.E2EEReceiver.DecryptMessage | receiver.py:24-44 | the result is what `Decrypted` states |
| Receiver.E2EEReceiver.MonitorMessages | receiver.py:57-86 | without a key nothing is read; otherwise the inputs up to the stop word are read, non-empty ones decrypted and shown, and successes logged |
| RenderDashboard.LeadingDigits | render-dashboard.php:44 | the longest prefix of ASCII digits |
| RenderDashboard.IntVal | render-dashboard.php:44 | a string without any ASCII digit reads as 0, and a negative result needs a minus sign in the string |
| RenderDashboard.IntValOfRendered | render-dashboard.php:44 | `intval` reads back a rendered natural number followed by any non-digit text |
| RenderDashboard.IntValOfRenderedNegative | render-dashboard.php:44 | `intval` reads back a rendered negative number |
| RenderDashboard.RenderAutoMessenger.constructor | render-dashboard.php:13-16 | `currentIndex` starts at 0 and the delay is `intval` of the setting times 1000 |
| RenderDashboard.SendError | render-dashboard.php:80 | the curl error when set, else "HTTP <code>" when the code is not 200; null iff the code is 200 and there is no curl error |
| RenderDashboard.EntryError | render-dashboard.php:108 | the send error when there is one, else the API's error message |
| RenderDashboard.RenderAutoMessenger.SendMessage | render-dashboard.php:47-82 | success iff the HTTP code is 200; one request and one SUCCESS/FAILED log line |
| RenderDashboard.RenderAutoMessenger.GetNextMessage | render-dashboard.php:84-89 | with no messages: "Hello from Render!" and the cursor is untouched; otherwise the message under the cursor, which moves on modulo the list length and stays in range |
| RenderDashboard.Targets | render-dashboard.php:98-99 | the trimmed uids that are not empty in PHP's sense, in order |
| RenderDashboard.TargetsAppend | render-dashboard.php:95-99 | skipping blanks distributes over concatenation |
| RenderDashboard.BatchTargets | render-dashboard.php:96 | the batch sends to at most `$count` targets: the first ones, all of them when there are fewer |
| RenderDashboard.PauseCount | render-dashboard.php:115-117 | k sends make k - 1 pauses when k reaches min(`$count`, uid count), else k |
| RenderDashboard.Pauses | render-dashboard.php:116 | every pause lasts the delay times 1000 microseconds |
| RenderDashboard.NextMessageFollows | render-dashboard.php:86-87 | the j-th message of a batch is the one under the cursor after j steps |
| RenderDashboard.RenderAutoMessenger.RunBatch | render-dashboard.php:91-121 | sends exactly to `BatchTargets`, one result per send in uid order with its message, success and error; the cursor moves on once per send; requests, log lines and pauses are recorded accordingly |
| RenderDashboard.RenderAutoMessenger.TestConnection | render-dashboard.php:123-130 | with no uids: 'No UIDs configured' and nothing sent; otherwise one test message to the untrimmed first uid, whose result is the full `sendMessage` result: success iff HTTP 200, the status code, the send error and the API error message |
| MessengerBot.MessengerE2EEBot.constructor | messenger_e2ee_bot.py:102-109 | the replied set is the stored list, or empty when it is missing or unreadable |
| MessengerBot.MessengerE2EEBot.HasReplied | messenger_e2ee_bot.py:118-119 | a predicate with no ensures of its own: true exactly for the ids in the replied set, as `MarkReplied` and `SendMessagesToTarget` use it |
| MessengerBot.MessengerE2EEBot.MarkReplied | messenger_e2ee_bot.py:118-123 | after marking, `has_replied(uid)` holds and every other uid keeps its membership |
| MessengerBot.FirstPhraseFrom | messenger_e2ee_bot.py:188-190 | the first phrase at or after k whose lower-cased form occurs in the page text, or none |
| MessengerBot.UiCheck | messenger_e2ee_bot.py:168-200 | a lock element makes the check positive; a negative check says "No UI indicator text/lock found"; a positive one without a lock names a phrase of the list that occurs in the lower-cased page text |
| MessengerBot.UiCheckPositive | messenger_e2ee_bot.py:168-200 | the UI check is positive iff some lower-cased phrase occurs in the lower-cased page text or a lock element exists; it names the first phrase found |
| MessengerBot.MatchesCopies | messenger_e2ee_bot.py:218 | a key appears once per suspect it contains after lowering, at most once per suspect |
| MessengerBot.MatchesEverySuspect | messenger_e2ee_bot.py:218 | a key matching every suspect is repeated once per suspect |
| MessengerBot.FoundMatches | messenger_e2ee_bot.py:218 | every match is a key, and there is one iff some lower-cased key contains some suspect |
| MessengerBot.ReportedFirstFive | messenger_e2ee_bot.py:220 | at most five matches are reported: the first ones |
| MessengerBot.StorageCheck | messenger_e2ee_bot.py:204-224 | only a dict read from localStorage can be positive; a non-dict gives "localStorage unreadable", a script error gives "localStorage check exception: " and the error, a dict without suspicious keys gives "No suspicious localStorage keys found" |
| MessengerBot.StorageCheckPositive | messenger_e2ee_bot.py:204-224 | the storage check is positive iff localStorage was read as a dict and some lower-cased key contains a suspect substring |
| MessengerBot.EnsureChatIsE2EE | messenger_e2ee_bot.py:226-237 | positive iff the UI or the storage check is; the UI reason is reported whenever the UI check is positive, the storage reason when only it is, both reasons when neither is |
| MessengerBot.Entered | messenger_e2ee_bot.py:273-283 | fewer than n messages are entered exactly when the box raises before the n-th |
| MessengerBot.Deliveries | messenger_e2ee_bot.py:273-281 | one delivery per message, in order, to the target |
| MessengerBot.GuardsBeforeNavigation | messenger_e2ee_bot.py:241-244 | an empty target gives "empty id", a replied one "already replied", neither navigates and nothing is typed |
| MessengerBot.AttemptSucceeds | messenger_e2ee_bot.py:240-288 | a target succeeds iff it is not refused, the page is logged in, the chat looks E2EE, the box exists and takes every message; success means every message was entered, in order |
| MessengerBot.LoginPageStops | messenger_e2ee_bot.py:252-253 | the "not logged in / checkpoint" failure stops the run |
| MessengerBot.GuardsDoNotStop | messenger_e2ee_bot.py:241-244 | refusing an empty or replied target does not stop the run |
| MessengerBot.NoBoxDoesNotStop | messenger_e2ee_bot.py:270-271 | a missing message box does not stop the run |
| MessengerBot.StoppedStays | messenger_e2ee_bot.py:309-311 | once the run stops, later targets change nothing |
| MessengerBot.RunOutcomes | messenger_e2ee_bot.py:301-311 | one outcome per target looked at; the run stops iff some outcome's lower-cased reason names a login or a checkpoint, and only the last outcome can |
| MessengerBot.RepliedAfterAllSent | messenger_e2ee_bot.py:273-285 | the replied set only grows, and a newly replied target has had every message entered, in order |
| MessengerBot.MessengerE2EEBot.SendMessagesToTarget | messenger_e2ee_bot.py:240-288 | the result is `Attempt`; the target joins the replied set iff it succeeded; its chat is visited iff it passed the guards; the messages entered are recorded |
| MessengerBot.MessengerE2EEBot.TypeMessages | messenger_e2ee_bot.py:273-283 | the messages up to the first failing one are entered, in order |
| MessengerBot.MessengerE2EEBot.SendToAllTargets | messenger_e2ee_bot.py:290-313 | nothing happens without messages or targets; otherwise the targets are visited in file order until a stopping failure, as `RunOn` states |
| Text.TrimEmpty | main.py:43 | a string strips to "" iff it is all whitespace |
| Text.SplitJoin | e2ee_messenger.py:295 | splitting at newlines inverts joining newline-free parts |
| Text.JoinSplit | receiver.py:32 | joining the parts of a split gives the original text |
| Text.Truncate | receiver.py:86 | a text is unchanged up to n characters, else its first n characters plus "..." |
| Text.LowerIdempotent | messenger_e2ee_bot.py:189 | lower-casing twice is the same as once |

## Left out

- File, environment and console I/O: loaded files are inputs; `input()` lines are a sequence; `print` is not modelled.
- Directory creation (`setup_directories`), `loadConfiguration` in render-dashboard.php, and the HTML/CSS/JavaScript dashboard: configuration values are constructor inputs.
- `save_replied_users`: the JSON write after `mark_replied` is not modelled, only the in-memory set.
- Timestamps: `datetime.now` and `time()` are inputs (`clock` strings) or left out of log lines.
- `time.sleep`, `usleep` and `random` jitter: the dashboard records its pauses; the Python sleeps are not modelled.
- The Graph API, curl and Selenium: their answers are inputs, and the requests are recorded in `calls`.
- Exceptions raised by `driver.get` are not modelled.
- The outer exception handler of `is_chat_e2ee_by_ui` is not modelled.
- A `FailsAt` box state means the failing message was not entered.
- Fernet, PBKDF2-HMAC-SHA256, SHA-256, url-safe base64 and `os.urandom`: function values and random inputs; their guarantees are the hypothesis `Crypto.Sound`.
- Text case and digits: `str.lower` and `isdigit` are modelled for ASCII only, and there is no Unicode case folding.
- List repr: the `repr` of the reported key list uses single quotes without escaping.
- `intval`: exponents, fractions and integer overflow are not modelled.
- The console menus and `main()` functions are glue and are not modelled. This includes the call `messenger.login_user.login_user` in e2ee_messenger.py, which names a missing attribute.
- `KeyboardInterrupt` and the endless loops: each loop runs over a given finite sequence of attempts.
- `log_decryption` is modelled as written: it writes only the decrypted text, and the excerpt it is passed is unused.
- Receiver frames: main.py frames a ciphertext under `🔐 ENCRYPTED_MESSAGE`, not `ENCRYPTED_MESSAGE_START`, so its messages take the direct-decrypt path.
- PHP `empty("0")` is true, so `runBatch` skips a uid "0", as written.
- When blank uids are present, `runBatch` still pauses after its last send, as written.
- `send_multiple_targets.py`, `app.py`, `utils.py` and `setup_config.py` are not part of this model.
- FacebookMessenger.E2EEFacebookMessenger.constructor: a key that is not a valid Fernet key makes `Fernet(key)` raise ValueError, so the bot never starts; the model keeps any non-empty key. A missing token makes the start-up banner's `self.token[:20]` raise TypeError; the model keeps the bot with no token.
- Receiver.E2EEReceiver.constructor: a malformed encryption_key.txt makes `Fernet(key)` raise ValueError; the model keeps any non-empty key.
- RenderDashboard.RenderAutoMessenger.RunBatch: a negative delay setting makes PHP 8's `usleep` throw ValueError at the first pause; the model records the pause with its negative length.
- E2EEApp.E2EEMessenger.constructor: the `login_system` and `current_user` fields are not held; accounts are the separate `E2EELoginSystem` object, which the console menu, left out above, drives.
- `log_system` in userid_to_e2ee_messenger.py (logs/system.log) and the human-readable copy of each record in logs/e2ee_messages.txt are not modelled; `log` holds the JSON records of logs/e2ee_conversion_logs.json.
- `Countdown` models the one-second countdown of main.py on its own: the send loop never clears `is_running`, so a run never leaves the countdown early, and the loop's sleeps are not recorded.

## Findings

| source | as written | input that shows it | evidently intended | confidence | as-written member | corrected member |
|---|---|---|---|---|---|---|
| e2ee_messenger.py:288 | `input()` reads one line, so pasting a posted frame hands `decrypt_received_message` only the header line; the header holds the marker and no payload line, so it goes to `decrypt_message` as it is and cannot decrypt | the text `send_encrypted_message` posts: "🔐 E2EE ENCRYPTED MESSAGE", a newline, the ciphertext, and the tip and clock lines | the whole pasted message is read, its ciphertext line extracted and decrypted to the plaintext | not executed | E2EEApp.PastedFrameDecryptsHeader | E2EEApp.SendReceiveRoundTrip |
